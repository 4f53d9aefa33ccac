/**
 * The callback data of the inline buttons: fixed words and an id joined
 * with '_' (`f"rm_usr_{uid}"`, `f"assign_{uid}"`, ...), and the handlers'
 * way of reading the id back, `int(c.data.split("_")[k])`.
 */
module Tokens {
  import opened Wrappers
  import opened Text

  /** `f"{head}_{id}"`. */
  function Token(head: string, id: int): string
  {
    head + "_" + IntToString(id)
  }

  /**
   * `int(data.split("_")[k])`: `None` when there is no `k`-th piece (an
   * `IndexError`) or the piece is not an integer (a `ValueError`); either
   * one ends the handler before it writes anything.
   */
  function IntField(data: string, k: nat): Option<int>
  {
    var parts := Split(data, '_');
    if k < |parts| then ParseInt(parts[k]) else None
  }

  /** A token splits into the pieces of its head and the id, and the piece after the head reads back as the id. */
  lemma TokenRoundTrip(head: string, id: int)
    ensures Split(Token(head, id), '_') == Split(head, '_') + [IntToString(id)]
    ensures IntField(Token(head, id), |Split(head, '_')|) == Some(id)
  {
    var n := IntToString(id);
    var t := Token(head, id);
    assert t == head + ['_'] + n;
    SplitConcat(head, n, '_');
    SplitWhole(n, '_');
    var parts := Split(t, '_');
    assert parts == Split(head, '_') + [n];
    assert parts[|Split(head, '_')|] == n;
    ParseIntOfIntToString(id);
  }

  lemma SplitWhole(s: string, sep: char)
    requires sep !in s
    ensures Split(s, sep) == [s]
  {
  }

  /** A token made from a two-word head splits into the two words and the id. */
  lemma TwoWordToken(head: string, w1: string, w2: string, id: int)
    requires Split(head, '_') == [w1, w2]
    ensures |Split(Token(head, id), '_')| == 3 && Split(Token(head, id), '_')[1] == w2
    ensures IntField(Token(head, id), 2) == Some(id)
  {
    TokenRoundTrip(head, id);
  }

  /** The pieces of a three-word head. */
  lemma SplitThreeWords(a: string, b: string, c: string)
    requires '_' !in a && '_' !in b && '_' !in c
    ensures Split(a + "_" + b + "_" + c, '_') == [a, b, c]
  {
    assert a + "_" + b + "_" + c == a + ['_'] + (b + "_" + c);
    SplitConcat(a, b + "_" + c, '_');
    SplitWhole(a, '_');
    SplitTwoWords(b, c);
  }

  /** The pieces of a two-word head. */
  lemma SplitTwoWords(a: string, b: string)
    requires '_' !in a && '_' !in b
    ensures Split(a + "_" + b, '_') == [a, b]
  {
    SplitConcat(a, b, '_');
    assert a + "_" + b == a + ['_'] + b;
  }
}
