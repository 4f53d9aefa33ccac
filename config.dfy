/**
 * bot/config.py: the administrator list read from the `ADMIN_IDS`
 * environment text, and the role labels of the menus with their codes.
 */
module Config {
  import opened Wrappers
  import opened Text

  /** `[int(x) for x in pieces]`; `None` when some piece is not an integer (a `ValueError` at import). */
  function ParseAll(pieces: seq<string>): (r: Option<seq<int>>)
    ensures r.Some? ==> |r.value| == |pieces|
    ensures r.Some? ==> forall i :: 0 <= i < |pieces| ==> ParseInt(pieces[i]) == Some(r.value[i])
    ensures (forall i :: 0 <= i < |pieces| ==> ParseInt(pieces[i]).Some?) ==> r.Some?
  {
    ConvertAll(pieces, ParseInt)
  }

  /** A list comprehension whose conversion may raise: every item converted, or `None` at the first failure. */
  function ConvertAll<A, B>(xs: seq<A>, f: A -> Option<B>): (r: Option<seq<B>>)
    ensures r.Some? ==> |r.value| == |xs|
    ensures r.Some? ==> forall i :: 0 <= i < |xs| ==> f(xs[i]) == Some(r.value[i])
    ensures (forall i :: 0 <= i < |xs| ==> f(xs[i]).Some?) ==> r.Some?
  {
    if |xs| == 0 then Some([])
    else
      var h := f(xs[0]);
      var t := ConvertAll(xs[1..], f);
      if h.None? then None
      else if t.None? then
        assert !forall i :: 0 <= i < |xs| ==> f(xs[i]).Some? by {
          var j :| 0 <= j < |xs[1..]| && f(xs[1..][j]).None?;
          assert xs[j + 1] == xs[1..][j];
        }
        None
      else
        var r := [h.value] + t.value;
        assert forall i :: 0 <= i < |xs| ==> f(xs[i]) == Some(r[i]) by {
          forall i | 0 <= i < |xs| ensures f(xs[i]) == Some(r[i]) {
            if i > 0 { assert xs[i] == xs[1..][i - 1] && r[i] == t.value[i - 1]; }
          }
        }
        Some(r)
  }

  /** `ADMIN_IDS`: nothing for an empty variable, else one integer per comma-separated piece. */
  function AdminIds(env: string): Option<seq<int>>
  {
    if env == "" then Some([]) else ParseAll(Split(env, ','))
  }

  /** The environment text that lists `ids`. */
  function IdsText(ids: seq<int>): string
  {
    Join(seq(|ids|, i requires 0 <= i < |ids| => IntToString(ids[i])), ',')
  }

  /** Reading back the text of a list of ids gives the list. */
  lemma AdminIdsRoundTrip(ids: seq<int>)
    ensures AdminIds(IdsText(ids)) == Some(ids)
  {
    var pieces := seq(|ids|, i requires 0 <= i < |ids| => IntToString(ids[i]));
    if |ids| > 0 {
      var s := IdsText(ids);
      NonEmptyJoin(pieces);
      SplitJoin(pieces, ',');
      assert Split(s, ',') == pieces;
      forall i | 0 <= i < |pieces| ensures ParseInt(pieces[i]) == Some(ids[i]) {
        ParseIntOfIntToString(ids[i]);
      }
      var r := ParseAll(pieces);
      assert r.Some?;
      assert r.value == ids;
    }
  }

  lemma {:induction false} NonEmptyJoin(pieces: seq<string>)
    requires |pieces| > 0 && |pieces[0]| > 0
    ensures Join(pieces, ',') != ""
  {
  }

  /** A dict display: later entries replace earlier ones with the same key. */
  function MapOf(items: seq<(string, string)>): map<string, string>
  {
    if |items| == 0 then map[]
    else MapOf(items[..|items| - 1])[items[|items| - 1].0 := items[|items| - 1].1]
  }

  function Swapped(items: seq<(string, string)>): (r: seq<(string, string)>)
    ensures |r| == |items| && forall i :: 0 <= i < |items| ==> r[i] == (items[i].1, items[i].0)
  {
    seq(|items|, i requires 0 <= i < |items| => (items[i].1, items[i].0))
  }

  /** `{v: k for k, v in items}`: a dict display of the swapped pairs. */
  function InverseOf(items: seq<(string, string)>): map<string, string>
  {
    MapOf(Swapped(items))
  }

  predicate DistinctKeys(items: seq<(string, string)>)
  {
    forall i, j :: 0 <= i < j < |items| ==> items[i].0 != items[j].0
  }

  /** With distinct keys a dict display holds every pair and nothing else. */
  lemma {:induction false} MapOfExact(items: seq<(string, string)>)
    requires DistinctKeys(items)
    ensures forall i :: 0 <= i < |items| ==> items[i].0 in MapOf(items) && MapOf(items)[items[i].0] == items[i].1
    ensures forall k :: k in MapOf(items) ==> exists i :: 0 <= i < |items| && items[i].0 == k
    ensures |MapOf(items)| == |items|
    decreases |items|
  {
    if |items| > 0 {
      DistinctInit(items);
      MapOfExact(items[..|items| - 1]);
      MapOfStep(items);
    }
  }

  /** Adding a pair with a new key to an exact dict display keeps it exact. */
  lemma MapOfStep(items: seq<(string, string)>)
    requires |items| > 0
    requires forall i :: 0 <= i < |items| - 1 ==> items[i].0 != items[|items| - 1].0
    requires var init := items[..|items| - 1];
             (forall i :: 0 <= i < |init| ==> init[i].0 in MapOf(init) && MapOf(init)[init[i].0] == init[i].1)
             && (forall k :: k in MapOf(init) ==> exists i :: 0 <= i < |init| && init[i].0 == k)
             && |MapOf(init)| == |init|
    ensures forall i :: 0 <= i < |items| ==> items[i].0 in MapOf(items) && MapOf(items)[items[i].0] == items[i].1
    ensures forall k :: k in MapOf(items) ==> exists i :: 0 <= i < |items| && items[i].0 == k
    ensures |MapOf(items)| == |items|
  {
    var init := items[..|items| - 1];
    var last := items[|items| - 1];
    var m := MapOf(init);
    assert last.0 !in m by {
      forall k | k in m ensures k != last.0 {
        var i :| 0 <= i < |init| && init[i].0 == k;
        assert init[i] == items[i];
      }
    }
    var n := m[last.0 := last.1];
    assert MapOf(items) == n;
    forall i | 0 <= i < |items| ensures items[i].0 in n && n[items[i].0] == items[i].1 {
      if i < |init| { assert items[i] == init[i]; }
    }
    forall k | k in n ensures exists i :: 0 <= i < |items| && items[i].0 == k {
      if k != last.0 {
        var i :| 0 <= i < |init| && init[i].0 == k;
        assert items[i] == init[i];
      } else {
        assert items[|items| - 1].0 == k;
      }
    }
    assert n.Keys == m.Keys + {last.0};
  }

  /** Dropping the last pair keeps the keys distinct, and none of them is the last key. */
  lemma DistinctInit(items: seq<(string, string)>)
    requires |items| > 0 && DistinctKeys(items)
    ensures DistinctKeys(items[..|items| - 1])
    ensures forall i :: 0 <= i < |items| - 1 ==> items[i].0 != items[|items| - 1].0
  {
    var init := items[..|items| - 1];
    forall i | 0 <= i < |init| ensures init[i] == items[i] { }
  }

  const RoleItems: seq<(string, string)> := [
    ("👑 Основатель", "founder"),
    ("🎧 A&R Менеджер", "anr"),
    ("🎨 Дизайнер", "designer"),
    ("📱 SMM Специалист", "smm")
  ]

  /** `ROLES_MAP`: menu label to role code. */
  function RolesMap(): map<string, string> { MapOf(RoleItems) }

  /** `ROLES_DISPLAY`: role code to menu label. */
  function RolesDisplay(): map<string, string> { InverseOf(RoleItems) }

  /** The labels differ from each other, and so do the codes. */
  lemma RoleItemsDistinct()
    ensures DistinctKeys(RoleItems) && DistinctKeys(Swapped(RoleItems))
  {
    var items := RoleItems;
    var firsts := seq(4, i requires 0 <= i < 4 => items[i].0[0]);
    assert firsts == ['\U{1F451}', '\U{1F3A7}', '\U{1F3A8}', '\U{1F4F1}'];
    var codes := seq(4, i requires 0 <= i < 4 => items[i].1[0]);
    assert codes == "fads";
    var swapped := Swapped(items);
    forall i, j | 0 <= i < j < 4 ensures items[i].0 != items[j].0 && swapped[i].0 != swapped[j].0 {
      assert firsts[i] != firsts[j] && codes[i] != codes[j];
    }
  }

  /**
   * Four labels map to the four codes founder, anr, designer and smm, and
   * the display map is the exact inverse of the label map.
   */
  lemma RolesInverse()
    ensures |RolesMap()| == 4 && |RolesDisplay()| == 4
    ensures forall i :: 0 <= i < 4 ==> RoleItems[i].0 in RolesMap() && RolesMap()[RoleItems[i].0] == ["founder", "anr", "designer", "smm"][i]
    ensures forall l :: l in RolesMap() ==> RolesMap()[l] in RolesDisplay() && RolesDisplay()[RolesMap()[l]] == l
    ensures forall c :: c in RolesDisplay() ==> RolesDisplay()[c] in RolesMap() && RolesMap()[RolesDisplay()[c]] == c
  {
    RoleItemsDistinct();
    MapOfExact(RoleItems);
    InverseExact(RoleItems);
  }

  /** With distinct keys and distinct values, swapping the pairs gives the exact inverse map. */
  lemma InverseExact(items: seq<(string, string)>)
    requires DistinctKeys(items) && DistinctKeys(Swapped(items))
    ensures |InverseOf(items)| == |items|
    ensures forall l :: l in MapOf(items) ==> MapOf(items)[l] in InverseOf(items) && InverseOf(items)[MapOf(items)[l]] == l
    ensures forall c :: c in InverseOf(items) ==> InverseOf(items)[c] in MapOf(items) && MapOf(items)[InverseOf(items)[c]] == c
  {
    MapOfExact(Swapped(items));
    InverseForward(items);
    InverseBackward(items);
  }

  lemma InverseForward(items: seq<(string, string)>)
    requires DistinctKeys(items) && DistinctKeys(Swapped(items))
    ensures forall l :: l in MapOf(items) ==> MapOf(items)[l] in InverseOf(items) && InverseOf(items)[MapOf(items)[l]] == l
  {
    var swapped := Swapped(items);
    MapOfExact(items);
    MapOfExact(swapped);
    var m, d := MapOf(items), InverseOf(items);
    forall l | l in m ensures m[l] in d && d[m[l]] == l {
      var i :| 0 <= i < |items| && items[i].0 == l;
      assert swapped[i].0 == m[l];
    }
  }

  lemma InverseBackward(items: seq<(string, string)>)
    requires DistinctKeys(items) && DistinctKeys(Swapped(items))
    ensures forall c :: c in InverseOf(items) ==> InverseOf(items)[c] in MapOf(items) && MapOf(items)[InverseOf(items)[c]] == c
  {
    var swapped := Swapped(items);
    MapOfExact(items);
    MapOfExact(swapped);
    var m, d := MapOf(items), InverseOf(items);
    forall c | c in d ensures d[c] in m && m[d[c]] == c {
      var i :| 0 <= i < |swapped| && swapped[i].0 == c;
      assert items[i].0 == d[c];
    }
  }
}
