/**
  The preparation-steps text area: its raw text is split on newline
  characters into an ordered list of steps, with no trimming and no
  dropping of blank lines.
 */
module PreparationSteps {

  const Newline: char := '\n'

  /** `text.split('\n')`: the pieces between newlines, in order. The empty
      text gives one empty piece. */
  function Split(text: string): (pieces: seq<string>)
    ensures |pieces| >= 1
    ensures forall i :: 0 <= i < |pieces| ==> Newline !in pieces[i]
  {
    if text == [] then [""]
    else
      var rest := Split(text[1..]);
      if text[0] == Newline then [""] + rest
      else [[text[0]] + rest[0]] + rest[1..]
  }

  /** There is one more piece than there are newlines in the text. */
  lemma {:induction false} SplitCount(text: string)
    ensures |Split(text)| == multiset(text)[Newline] + 1
  {
    if text != [] {
      SplitCount(text[1..]);
      assert text == [text[0]] + text[1..];
    }
  }

  /** The inverse of Split: the pieces joined with a newline between each
      two neighbours. */
  function Join(pieces: seq<string>): string {
    if pieces == [] then "" else pieces[0] + JoinTail(pieces[1..])
  }

  /** Each piece preceded by a newline. */
  function JoinTail(pieces: seq<string>): string {
    if pieces == [] then "" else [Newline] + pieces[0] + JoinTail(pieces[1..])
  }

  /** Joining two or more pieces puts a newline after the first one. */
  lemma JoinCons(pieces: seq<string>)
    requires |pieces| >= 2
    ensures Join(pieces) == pieces[0] + [Newline] + Join(pieces[1..])
  {
    assert pieces[1..][1..] == pieces[2..];
  }

  /** Prefixing a character to the first piece prefixes it to the joined text. */
  lemma JoinConsFirst(c: char, pieces: seq<string>)
    requires |pieces| >= 1
    ensures Join([[c] + pieces[0]] + pieces[1..]) == [c] + Join(pieces)
  {
    var q := [[c] + pieces[0]] + pieces[1..];
    assert q[0] == [c] + pieces[0] && q[1..] == pieces[1..];
  }

  /** Joining the pieces of a split gives back the original text. */
  lemma {:induction false} JoinSplit(text: string)
    ensures Join(Split(text)) == text
  {
    if text != [] {
      var rest := Split(text[1..]);
      JoinSplit(text[1..]);
      if text[0] == Newline {
        assert ([""] + rest)[1..] == rest;
        assert text == [Newline] + text[1..];
      } else {
        JoinConsFirst(text[0], rest);
        assert text == [text[0]] + text[1..];
      }
    }
  }

  /** Splitting a text whose prefix `p` has no newline: `p` is glued to the
      first piece of the rest. */
  lemma {:induction false} SplitPrefix(p: string, t: string)
    requires Newline !in p
    ensures Split(p + t) == [p + Split(t)[0]] + Split(t)[1..]
  {
    if p != [] {
      SplitPrefix(p[1..], t);
      assert (p + t)[1..] == p[1..] + t;
      assert p + Split(t)[0] == [p[0]] + (p[1..] + Split(t)[0]);
    } else {
      var r := Split(t);
      assert p + t == t && p + r[0] == r[0];
      assert r == [r[0]] + r[1..];
    }
  }

  /** A leading newline starts a new, empty first piece. */
  lemma SplitNewline(tail: string)
    ensures Split([Newline] + tail) == [""] + Split(tail)
  {
    assert ([Newline] + tail)[1..] == tail;
  }

  /** Splitting joined newline-free pieces gives back the pieces. */
  lemma {:induction false} SplitJoin(pieces: seq<string>)
    requires |pieces| >= 1
    requires forall i :: 0 <= i < |pieces| ==> Newline !in pieces[i]
    ensures Split(Join(pieces)) == pieces
  {
    var first := pieces[0];
    if |pieces| == 1 {
      SplitPrefix(first, "");
      assert first + "" == first;
      assert Join(pieces) == first + "";
    } else {
      var rest := pieces[1..];
      var t := [Newline] + Join(rest);
      JoinCons(pieces);
      assert Join(pieces) == first + t;
      SplitJoin(rest);
      SplitNewline(Join(rest));
      assert Split(t) == [""] + rest;
      SplitPrefix(first, t);
      assert Split(first + t) == [first + ""] + rest;
      assert first + "" == first;
    }
  }

  /** The two shapes the preparation field's text takes: three lines give
      three steps, and the empty text gives a single empty step. */
  lemma SplitExamples()
    ensures Split("a\nb\nc") == ["a", "b", "c"]
    ensures Split("") == [""]
  {
    var pieces := ["a", "b", "c"];
    assert Join(pieces[2..]) == "c" by { assert pieces[2..] == ["c"]; }
    assert Join(pieces[1..]) == "b\nc" by { JoinCons(pieces[1..]); assert pieces[1..][1..] == pieces[2..]; }
    assert Join(pieces) == "a\nb\nc" by { JoinCons(pieces); }
    SplitJoin(pieces);
  }
}
