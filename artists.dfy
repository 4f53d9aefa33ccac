/**
 * bot/handlers/artists.py: the artist list with its onboarding markers,
 * the artist card with one toggle button per onboarding flag, and the
 * CreateArtist form (name, manager, date of the first release or "нет").
 */
module Artists {
  import opened Wrappers
  import opened Text
  import opened Ordering
  import opened Store
  import opened Forms
  import opened Keyboards
  import opened Tokens
  import opened Dates

  /** The marker the list shows for a set flag. */
  function MarkerOf(f: Flag): char
  {
    match f
    case Contract => '\U{1F4DD}'
    case MmProfile => '\U{1F3B5}'
    case MmVerify => '\U{2705}'
    case YtLink => '\U{1F4FA}'
    case YtNote => '\U{1F3BC}'
  }

  /** The order in which the list and the card show the flags. */
  const ShownOrder: seq<Flag> := [Contract, MmProfile, MmVerify, YtLink, YtNote]

  /** The `status` text `list_artists` and `back_to_list` build for one artist. */
  function StatusMarker(a: Artist): string
  {
    var s0 := "";
    var s1 := if a.contract then s0 + [MarkerOf(Contract)] else s0;
    var s2 := if a.mmProfile then s1 + [MarkerOf(MmProfile)] else s1;
    var s3 := if a.mmVerify then s2 + [MarkerOf(MmVerify)] else s2;
    var s4 := if a.ytLink then s3 + [MarkerOf(YtLink)] else s3;
    if a.ytNote then s4 + [MarkerOf(YtNote)] else s4
  }

  /** The markers of the set flags among `fs`, in the order of `fs`. */
  function Markers(a: Artist, fs: seq<Flag>): string
  {
    if |fs| == 0 then "" else (if FlagOf(a, fs[0]) then [MarkerOf(fs[0])] else "") + Markers(a, fs[1..])
  }

  function Marker(a: Artist, f: Flag): string
  {
    if FlagOf(a, f) then [MarkerOf(f)] else ""
  }

  /** The five per-flag pieces, in the shown order. */
  lemma MarkersShown(a: Artist)
    ensures Markers(a, ShownOrder) ==
              Marker(a, Contract) + Marker(a, MmProfile) + Marker(a, MmVerify) + Marker(a, YtLink) + Marker(a, YtNote)
  {
    MarkersOfFive(a, Contract, MmProfile, MmVerify, YtLink, YtNote);
  }

  lemma MarkersOfFive(a: Artist, f1: Flag, f2: Flag, f3: Flag, f4: Flag, f5: Flag)
    ensures Markers(a, [f1, f2, f3, f4, f5]) == Marker(a, f1) + Marker(a, f2) + Marker(a, f3) + Marker(a, f4) + Marker(a, f5)
  {
    var m1, m2, m3, m4, m5 := Marker(a, f1), Marker(a, f2), Marker(a, f3), Marker(a, f4), Marker(a, f5);
    var t0 := [f1, f2, f3, f4, f5];
    var t1, t2, t3, t4 := t0[1..], t0[2..], t0[3..], t0[4..];
    assert t4[1..] == [] && t3[1..] == t4 && t2[1..] == t3 && t1[1..] == t2 && t0[1..] == t1;
    assert t0[0] == f1 && t1[0] == f2 && t2[0] == f3 && t3[0] == f4 && t4[0] == f5;
    MarkersCons(a, t4);
    assert m5 + "" == m5;
    MarkersCons(a, t3);
    MarkersCons(a, t2);
    MarkersCons(a, t1);
    MarkersCons(a, t0);
    assert Markers(a, t0) == m1 + (m2 + (m3 + (m4 + m5)));
    Concat3(m3, m4, m5);
    Concat3(m2, m3 + m4, m5);
    Concat3(m1, m2 + (m3 + m4), m5);
    Concat3(m2, m3, m4);
    Concat3(m1, m2 + m3, m4);
    Concat3(m1, m2, m3);
  }


  lemma MarkersCons(a: Artist, fs: seq<Flag>)
    requires |fs| > 0
    ensures Markers(a, fs) == Marker(a, fs[0]) + Markers(a, fs[1..])
  {
  }

  /** A flag's marker is in another flag's piece only when it is that flag, and that flag is set. */
  lemma MarkerInPiece(a: Artist, f: Flag, g: Flag)
    ensures MarkerOf(f) in Marker(a, g) <==> f == g && FlagOf(a, f)
  {
  }

  /**
   * The status text holds one marker per set flag, in the order contract,
   * mm_profile, mm_verify, yt_link, yt_note, and a flag's marker appears
   * exactly when the flag is set.
   */
  lemma StatusMarkerFlags(a: Artist)
    ensures StatusMarker(a) == Markers(a, ShownOrder)
    ensures forall f: Flag :: MarkerOf(f) in StatusMarker(a) <==> FlagOf(a, f)
  {
    MarkersShown(a);
    var m1, m2, m3, m4, m5 := Marker(a, Contract), Marker(a, MmProfile), Marker(a, MmVerify), Marker(a, YtLink), Marker(a, YtNote);
    assert StatusMarker(a) == m1 + m2 + m3 + m4 + m5;
    forall f: Flag ensures MarkerOf(f) in StatusMarker(a) <==> FlagOf(a, f) {
      MarkerInPiece(a, f, Contract);
      MarkerInPiece(a, f, MmProfile);
      MarkerInPiece(a, f, MmVerify);
      MarkerInPiece(a, f, YtLink);
      MarkerInPiece(a, f, YtNote);
      assert MarkerOf(f) in m1 + m2 + m3 + m4 + m5 <==>
               MarkerOf(f) in m1 || MarkerOf(f) in m2 || MarkerOf(f) in m3 || MarkerOf(f) in m4 || MarkerOf(f) in m5;
    }
  }

  /** The list entry of an artist: the name, a space and the markers. */
  function EntryText(a: Artist): string
  {
    a.name + " " + StatusMarker(a)
  }

  /** `view_art_<id>`. */
  function ViewArtToken(a: Artist): string
  {
    Token("view_art", a.id)
  }

  const AddArtistButton := Button("➕ Добавить артиста", "add_artist")

  /** The buttons of the artist list: one entry per artist, in the given order, then the add button. */
  method ArtistList(artists: seq<Artist>) returns (kb: seq<Button>)
    ensures |kb| == |artists| + 1 && kb[|artists|] == AddArtistButton
    ensures forall i :: 0 <= i < |artists| ==> kb[i] == Button(EntryText(artists[i]), ViewArtToken(artists[i]))
  {
    var entries := Buttons(artists, EntryText, ViewArtToken);
    kb := entries + [AddArtistButton];
  }

  /** `list_artists`: every artist in name order, for founder and anr; silence for anyone else. */
  method ListArtists(db: Database, uid: int) returns (kb: Option<seq<Button>>)
    requires Registered(db.users, uid)
    ensures kb.Some? <==> FindUser(db.users, uid).value.role in {"founder", "anr"}
    ensures kb.Some? ==>
              var shown := AllArtists(db.artists);
              |kb.value| == |db.artists| + 1 && kb.value[|db.artists|] == AddArtistButton
              && forall i :: 0 <= i < |db.artists| ==> kb.value[i] == Button(EntryText(shown[i]), ViewArtToken(shown[i]))
  {
    var user := FindUser(db.users, uid).value;
    if user.role != "founder" && user.role != "anr" {
      return None;
    }
    var shown := AllArtists(db.artists);
    assert |shown| == |multiset(db.artists)|;
    var list := ArtistList(shown);
    kb := Some(list);
  }

  /** `back_to_list`: the same list, with no role check. */
  method BackToList(db: Database) returns (kb: seq<Button>)
    ensures |kb| == |db.artists| + 1 && kb[|db.artists|] == AddArtistButton
    ensures forall i :: 0 <= i < |db.artists| ==>
              kb[i] == Button(EntryText(AllArtists(db.artists)[i]), ViewArtToken(AllArtists(db.artists)[i]))
  {
    var shown := AllArtists(db.artists);
    assert |shown| == |multiset(db.artists)|;
    kb := ArtistList(shown);
  }

  /** The third piece of `view_art_<id>` reads back as the id. */
  lemma ViewArtRoundTrip(a: Artist)
    ensures IntField(ViewArtToken(a), 2) == Some(a.id)
  {
    SplitTwoWords("view", "art");
    assert "view" + "_" + "art" == "view_art";
    TokenRoundTrip("view_art", a.id);
  }

  /** The card of one artist. */
  datatype Card = Card(name: string, manager: string, firstRelease: string, buttons: seq<Button>)

  function FlagTitle(f: Flag): string
  {
    match f
    case Contract => "📝 Контракт"
    case MmProfile => "🎵 MM Профиль"
    case MmVerify => "✅ MM Верификация"
    case YtLink => "📺 YouTube Линк"
    case YtNote => "🎼 YouTube Нота"
  }

  /** `tog_<column>_<id>`. */
  function TogToken(f: Flag, aid: int): string
  {
    "tog_" + ColumnName(f) + "_" + IntToString(aid)
  }

  const BackButton := Button("🔙 К списку", "back_artists")

  /**
   * `render_artist_view`: nothing for an unknown id; otherwise the name,
   * the manager's name (or "Не назначен"), the first release date (or
   * "Не задан") and one button per flag, in the shown order, that says
   * whether the flag is set and toggles it.
   */
  method RenderArtist(db: Database, aid: int) returns (card: Option<Card>)
    ensures FindArtist(db.artists, aid).None? ==> card.None?
    ensures FindArtist(db.artists, aid).Some? ==>
              var a := FindArtist(db.artists, aid).value;
              var mgr := FindUser(db.users, a.managerId);
              card.Some? && card.value.name == a.name
              && card.value.manager == (if mgr.Some? then mgr.value.name else "Не назначен")
              && card.value.firstRelease == (if Truthy(a.firstReleaseDate) then a.firstReleaseDate.value else "Не задан")
              && |card.value.buttons| == 6 && card.value.buttons[5] == BackButton
              && forall i :: 0 <= i < 5 ==>
                   card.value.buttons[i] ==
                     Button((if FlagOf(a, ShownOrder[i]) then "✅" else "❌") + " " + FlagTitle(ShownOrder[i]),
                            TogToken(ShownOrder[i], aid))
  {
    var found := FindArtist(db.artists, aid);
    if found.None? {
      return None;
    }
    var a := found.value;
    var mgr := FindUser(db.users, a.managerId);
    var mgrName := if mgr.Some? then mgr.value.name else "Не назначен";
    var first := if Truthy(a.firstReleaseDate) then a.firstReleaseDate.value else "Не задан";
    var flags := Buttons(ShownOrder,
                         (f: Flag) => (if FlagOf(a, f) then "✅" else "❌") + " " + FlagTitle(f),
                         (f: Flag) => TogToken(f, aid));
    card := Some(Card(a.name, mgrName, first, flags + [BackButton]));
  }

  /** `parts = data.split("_")`: the column is the middle pieces joined by '_', the id the last piece. */
  function TogParse(data: string): (string, Option<int>)
  {
    var parts := Split(data, '_');
    var col := if |parts| >= 2 then Join(parts[1..|parts| - 1], '_') else "";
    (col, ParseInt(parts[|parts| - 1]))
  }

  lemma Middle<T>(h: T, m: seq<T>, x: T)
    ensures ([h] + m + [x])[1..|m| + 1] == m && ([h] + m + [x])[|m| + 1] == x
  {
  }

  /** The middle and the id come back out of `<head>_<col>_<id>`, even when the middle contains '_'. */
  lemma MiddleRoundTrip(head: string, col: string, aid: int)
    requires '_' !in head
    ensures TogParse(head + "_" + col + "_" + IntToString(aid)) == (col, Some(aid))
  {
    var n := IntToString(aid);
    MiddlePieces(head, col, n);
    ParseIntOfIntToString(aid);
  }

  /** Split at '_', `<head>_<col>_<n>` ends with `n` and its middle pieces join back to `col`. */
  lemma MiddlePieces(head: string, col: string, n: string)
    requires '_' !in head && '_' !in n
    ensures var parts := Split(head + "_" + col + "_" + n, '_');
            |parts| >= 2 && parts[|parts| - 1] == n && Join(parts[1..|parts| - 1], '_') == col
  {
    var tail := col + ['_'] + n;
    var s := head + "_" + col + "_" + n;
    Concat3(head + "_", col + "_", n);
    Concat3(head + "_", col, "_");
    assert s == head + ['_'] + tail;
    SplitWhole(head, '_');
    SplitWhole(n, '_');
    SplitConcat(head, tail, '_');
    SplitConcat(col, n, '_');
    var mid := Split(col, '_');
    var parts := Split(s, '_');
    Concat3([head], mid, [n]);
    assert parts == [head] + mid + [n];
    Middle(head, mid, n);
    JoinSplit(col, '_');
  }

  /** The column and the id come back out of `tog_<col>_<id>`, even though the column names contain '_'. */
  lemma TogRoundTrip(col: string, aid: int)
    ensures TogParse("tog_" + col + "_" + IntToString(aid)) == (col, Some(aid))
  {
    MiddleRoundTrip("tog", col, aid);
    assert "tog" + "_" == "tog_";
  }

  /** Every flag button of the card reads back as its own column and artist. */
  lemma TogTokenRoundTrip(f: Flag, aid: int)
    ensures TogParse(TogToken(f, aid)) == (ColumnName(f), Some(aid))
    ensures ColumnFlag(ColumnName(f)) == Some(f)
  {
    var col := ColumnName(f);
    TogRoundTrip(col, aid);
    assert TogToken(f, aid) == "tog_" + col + "_" + IntToString(aid);
    ColumnNameRoundTrip(f);
  }

  lemma ColumnNameRoundTrip(f: Flag)
    ensures ColumnFlag(ColumnName(f)) == Some(f)
  {
    match f
    case Contract =>
    case MmProfile => assert ColumnName(f) != "flag_contract";
    case MmVerify => assert ColumnName(f) != "flag_contract" && ColumnName(f) != "flag_mm_profile";
    case YtNote =>
    case YtLink =>
  }

  /** `toggle_artist_flag` on the table: the flag of that artist flips; an unknown id changes nothing. */
  function Toggled(artists: seq<Artist>, aid: int, f: Flag): (r: seq<Artist>)
    ensures FindArtist(artists, aid).None? ==> r == artists
    ensures |r| == |artists| && forall i :: 0 <= i < |r| ==> r[i].id == artists[i].id
    ensures FindArtist(artists, aid).Some? ==>
              forall i :: 0 <= i < |r| && artists[i].id == aid ==>
                FlagOf(r[i], f) == !FlagOf(FindArtist(artists, aid).value, f)
                && (forall g: Flag :: g != f ==> FlagOf(r[i], g) == FlagOf(artists[i], g))
                && r[i].name == artists[i].name && r[i].managerId == artists[i].managerId
                && r[i].firstReleaseDate == artists[i].firstReleaseDate
    ensures forall i :: 0 <= i < |r| && artists[i].id != aid ==> r[i] == artists[i]
  {
    var found := FindArtist(artists, aid);
    if found.None? then artists else WithArtistFlag(artists, aid, f, !FlagOf(found.value, f))
  }

  lemma ArtistAt(artists: seq<Artist>, k: nat)
    requires IdsIncreasing(artists, ArtistId) && k < |artists|
    ensures FindArtist(artists, artists[k].id) == Some(artists[k])
  {
    if k > 0 {
      assert artists[0].id < artists[k].id;
      assert IdsIncreasing(artists[1..], ArtistId);
      ArtistAt(artists[1..], k - 1);
    }
  }

  lemma SetFlagBack(a: Artist, f: Flag, v: bool)
    ensures SetFlag(SetFlag(a, f, v), f, FlagOf(a, f)) == a
  {
    match f
    case Contract =>
    case MmProfile =>
    case MmVerify =>
    case YtNote =>
    case YtLink =>
  }

  lemma FlipBack(artists: seq<Artist>, k: nat, f: Flag)
    requires IdsIncreasing(artists, ArtistId) && k < |artists|
    ensures var a := artists[k];
            WithArtistFlag(WithArtistFlag(artists, a.id, f, !FlagOf(a, f)), a.id, f, FlagOf(a, f)) == artists
  {
    var a := artists[k];
    var once := WithArtistFlag(artists, a.id, f, !FlagOf(a, f));
    var twice := WithArtistFlag(once, a.id, f, FlagOf(a, f));
    SetFlagBack(a, f, !FlagOf(a, f));
    forall i | 0 <= i < |artists| ensures twice[i] == artists[i] {
      if artists[i].id == a.id {
        assert i == k;
      }
    }
  }

  /** Pressing the same toggle twice restores the artist table. */
  lemma ToggleTwice(artists: seq<Artist>, aid: int, f: Flag)
    requires IdsIncreasing(artists, ArtistId)
    ensures Toggled(Toggled(artists, aid, f), aid, f) == artists
  {
    if FindArtist(artists, aid).Some? {
      var k :| 0 <= k < |artists| && artists[k].id == aid;
      var a := artists[k];
      ToggledAt(artists, k, f);
      var once := WithArtistFlag(artists, aid, f, !FlagOf(a, f));
      FlagKeepsIds(artists, aid, f, !FlagOf(a, f));
      assert once[k] == SetFlag(a, f, !FlagOf(a, f));
      ToggledAt(once, k, f);
      SetFlagBack(a, f, !FlagOf(a, f));
      FlipBack(artists, k, f);
    }
  }

  /** Toggling an artist that is in the table writes the opposite of its flag. */
  lemma ToggledAt(artists: seq<Artist>, k: nat, f: Flag)
    requires IdsIncreasing(artists, ArtistId) && k < |artists|
    ensures Toggled(artists, artists[k].id, f) == WithArtistFlag(artists, artists[k].id, f, !FlagOf(artists[k], f))
  {
    ArtistAt(artists, k);
  }

  /** Writing a flag changes no artist's id. */
  lemma FlagKeepsIds(artists: seq<Artist>, aid: int, f: Flag, v: bool)
    requires IdsIncreasing(artists, ArtistId)
    ensures IdsIncreasing(WithArtistFlag(artists, aid, f, v), ArtistId)
  {
    var r := WithArtistFlag(artists, aid, f, v);
    assert forall i :: 0 <= i < |r| ==> ArtistId(r[i]) == ArtistId(artists[i]);
  }

  /**
   * `toggle_artist_flag`: the artist and column named by the button get
   * the opposite value and the card is shown again; an id that is not an
   * integer, an unknown artist or a text that names no flag column changes
   * nothing.
   */
  method ToggleFlag(db: Database, data: string) returns (card: Option<Card>)
    requires db.Valid()
    modifies db`artists
    ensures db.Valid()
    ensures var (col, aid) := TogParse(data);
            if aid.Some? && ColumnFlag(col).Some? then db.artists == Toggled(old(db.artists), aid.value, ColumnFlag(col).value)
            else db.artists == old(db.artists)
  {
    var (col, aid) := TogParse(data);
    if aid.None? {
      return None;
    }
    var found := FindArtist(db.artists, aid.value);
    if found.None? {
      return None;
    }
    var f := ColumnFlag(col);
    if f.None? {
      return None;
    }
    db.UpdateArtistFlag(aid.value, f.value, !FlagOf(found.value, f.value));
    card := RenderArtist(db, aid.value);
  }

  /** `add_artist_start`: anyone who has the list may open the form. */
  method AddArtistStart(ctx: FsmContext)
    requires ctx.Valid()
    modifies ctx`step
    ensures ctx.Valid() && ctx.step == CreateArtistName
  {
    ctx.SetState(CreateArtistName);
  }

  /** `set_mgr_<id>`. */
  function SetMgrToken(u: User): string
  {
    Token("set_mgr", u.telegramId)
  }

  /** `add_artist_manager`: keep the name and offer every user, in role order, as manager. */
  method AddArtistName(ctx: FsmContext, db: Database, text: string) returns (kb: seq<Button>)
    requires ctx.Valid() && ctx.step == CreateArtistName
    modifies ctx
    ensures ctx.Valid()
    ensures ctx.step == CreateArtistManager && ctx.data == old(ctx.data)["name" := VStr(text)]
    ensures |kb| == |db.users|
    ensures forall i :: 0 <= i < |kb| ==> kb[i] == Button(AllUsers(db.users)[i].name, SetMgrToken(AllUsers(db.users)[i]))
  {
    ctx.UpdateData("name", VStr(text));
    var all := AllUsers(db.users);
    assert |all| == |multiset(db.users)|;
    kb := Buttons(all, (u: User) => u.name, SetMgrToken);
    ctx.SetState(CreateArtistManager);
  }

  /** The third piece of `set_mgr_<id>` reads back as the id. */
  lemma SetMgrRoundTrip(u: User)
    ensures IntField(SetMgrToken(u), 2) == Some(u.telegramId)
  {
    SplitTwoWords("set", "mgr");
    assert "set" + "_" + "mgr" == "set_mgr";
    TokenRoundTrip("set_mgr", u.telegramId);
  }

  /** `add_artist_date`: the manager id from the button, then the date step; data with no integer third piece stops the handler. */
  method AddArtistManager(ctx: FsmContext, data: string)
    requires ctx.Valid() && ctx.step == CreateArtistManager
    modifies ctx
    ensures ctx.Valid()
    ensures IntField(data, 2).Some? ==>
              ctx.step == CreateArtistDate && ctx.data == old(ctx.data)["manager" := VInt(IntField(data, 2).value)]
    ensures IntField(data, 2).None? ==> ctx.step == old(ctx.step) && ctx.data == old(ctx.data)
  {
    var mgr := IntField(data, 2);
    if mgr.None? {
      return;
    }
    UpdateKeepsKinds(ctx.data, "manager", VInt(mgr.value));
    ctx.UpdateData("manager", VInt(mgr.value));
    ctx.SetState(CreateArtistDate);
  }

  /**
   * The date answer of the CreateArtist form: "нет" in any case means no
   * date; otherwise the normalised text if it parses as "%Y-%m-%d", and
   * `None` (re-prompt) if it does not.
   */
  function DateAnswer(text: string): (r: Option<Option<string>>)
    ensures r == Some(None) <==> Lower(text) == "нет"
    ensures r.None? <==> Lower(text) != "нет" && ParseIso(CleanDate(text)).None?
    ensures r.Some? && r.value.Some? ==> r.value.value == CleanDate(text) && ParseIso(r.value.value).Some?
  {
    if Lower(text) == "нет" then Some(None)
    else if ParseIso(CleanDate(text)).Some? then Some(Some(CleanDate(text)))
    else None
  }

  /** "Нет" and "НЕТ" both mean no date. */
  lemma NoDateAnyCase()
    ensures DateAnswer("Нет") == Some(None) && DateAnswer("НЕТ") == Some(None) && DateAnswer("нет") == Some(None)
  {
    assert Lower("Нет") == "нет";
    assert Lower("НЕТ") == "нет";
  }

  /**
   * `add_artist_finish`: an accepted date answer creates the artist with
   * the kept name and manager, every flag unset, and clears the form; any
   * other answer re-prompts with nothing changed.
   */
  method AddArtistFinish(ctx: FsmContext, db: Database, text: string) returns (created: Option<int>)
    requires ctx.Valid() && ctx.step == CreateArtistDate && db.Valid()
    modifies ctx, db`artists, db`nextArtist
    ensures ctx.Valid() && db.Valid()
    ensures DateAnswer(text).None? ==>
              created.None? && ctx.step == old(ctx.step) && ctx.data == old(ctx.data)
              && db.artists == old(db.artists) && db.nextArtist == old(db.nextArtist)
    ensures DateAnswer(text).Some? ==>
              created == Some(old(db.nextArtist)) && ctx.step == Idle && ctx.data == map[]
              && db.artists == old(db.artists) + [Artist(old(db.nextArtist), old(ctx.data)["name"].s,
                   old(ctx.data)["manager"].i, DateAnswer(text).value, false, false, false, false, false)]
  {
    var answer := DateAnswer(text);
    if answer.None? {
      return None;
    }
    var id := db.CreateArtist(ctx.data["name"].s, ctx.data["manager"].i, answer.value);
    created := Some(id);
    ctx.Clear();
  }
}
