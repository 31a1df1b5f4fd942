/**
 Splitting a string at a one-character separator and joining it back.

 The shell cuts its input line at `|` (parse_commands) and every stage at
 `' '` (strtok); both are the same operation on a different separator, so it
 is defined once here, together with its inverse `Join`.
 */
module Text {

  /** Number of occurrences of `c` in `s`. */
  function Count(s: string, c: char): nat
  {
    multiset(s)[c]
  }

  /** Cuts `s` at every occurrence of `sep`. Adjacent separators, and a
      separator at either end, produce empty pieces; there is always at
      least one piece. */
  function SplitOn(s: string, sep: char): (pieces: seq<string>)
    ensures |pieces| == Count(s, sep) + 1
    ensures forall k :: 0 <= k < |pieces| ==> sep !in pieces[k]
    decreases |s|
  {
    if |s| == 0 then [""]
    else
      var rest := SplitOn(s[1..], sep);
      assert s == [s[0]] + s[1..];
      if s[0] == sep then [""] + rest
      else [[s[0]] + rest[0]] + rest[1..]
  }

  /** Puts `sep` between consecutive pieces. */
  function Join(pieces: seq<string>, sep: char): string
  {
    if |pieces| == 0 then ""
    else if |pieces| == 1 then pieces[0]
    else pieces[0] + [sep] + Join(pieces[1..], sep)
  }

  /** Joining the pieces of a split gives back the original string. */
  lemma {:induction false} JoinSplit(s: string, sep: char)
    ensures Join(SplitOn(s, sep), sep) == s
    decreases |s|
  {
    if |s| > 0 {
      JoinSplit(s[1..], sep);
      JoinSplitStep(s, sep);
    }
  }

  /** One step of `JoinSplit`: joining the split of `s` adds back its first
      character in front of the join of the split of the rest. */
  lemma JoinSplitStep(s: string, sep: char)
    requires |s| > 0
    ensures Join(SplitOn(s, sep), sep) == [s[0]] + Join(SplitOn(s[1..], sep), sep)
  {
    var rest := SplitOn(s[1..], sep);
    if s[0] == sep {
      assert SplitOn(s, sep) == [""] + rest;
      JoinCons("", rest, sep);
    } else {
      assert SplitOn(s, sep) == [[s[0]] + rest[0]] + rest[1..];
      GlueFront(s[0], rest, sep);
    }
  }

  /** Gluing a character onto the first piece glues it onto the join. */
  lemma GlueFront(c: char, pieces: seq<string>, sep: char)
    requires |pieces| >= 1
    ensures Join([[c] + pieces[0]] + pieces[1..], sep) == [c] + Join(pieces, sep)
  {
    JoinCons([c] + pieces[0], pieces[1..], sep);
    assert pieces == [pieces[0]] + pieces[1..];
    JoinCons(pieces[0], pieces[1..], sep);
  }

  /** Unfolds `Join` once at the front. */
  lemma JoinCons(w: string, rest: seq<string>, sep: char)
    ensures Join([w] + rest, sep) == if |rest| == 0 then w else w + [sep] + Join(rest, sep)
  {
    assert ([w] + rest)[1..] == rest;
  }

  /** A leading piece free of the separator is glued onto the first piece of
      whatever follows it. */
  lemma {:induction false} SplitPrefix(w: string, t: string, sep: char)
    requires sep !in w
    ensures SplitOn(w + t, sep) == [w + SplitOn(t, sep)[0]] + SplitOn(t, sep)[1..]
    decreases |w|
  {
    if |w| > 0 {
      assert w + t == [w[0]] + (w[1..] + t);
      SplitCons(w[0], w[1..] + t, sep);
      SplitPrefix(w[1..], t, sep);
      assert [w[0]] + (w[1..] + SplitOn(t, sep)[0]) == w + SplitOn(t, sep)[0];
    } else {
      assert w + t == t;
      assert w + SplitOn(t, sep)[0] == SplitOn(t, sep)[0];
      assert SplitOn(t, sep) == [SplitOn(t, sep)[0]] + SplitOn(t, sep)[1..];
    }
  }

  /** Unfolds `SplitOn` once at a leading character other than the
      separator. */
  lemma SplitCons(c: char, s: string, sep: char)
    requires c != sep
    ensures SplitOn([c] + s, sep) == [[c] + SplitOn(s, sep)[0]] + SplitOn(s, sep)[1..]
  {
    assert ([c] + s)[1..] == s;
  }

  /** Splitting a join of separator-free pieces gives back the pieces: the
      other half of the round trip. */
  lemma {:induction false} SplitJoin(pieces: seq<string>, sep: char)
    requires |pieces| >= 1
    requires forall k :: 0 <= k < |pieces| ==> sep !in pieces[k]
    ensures SplitOn(Join(pieces, sep), sep) == pieces
    decreases |pieces|
  {
    var w := pieces[0];
    if |pieces| == 1 {
      SplitPrefix(w, "", sep);
      assert w + "" == w;
    } else {
      var tail := Join(pieces[1..], sep);
      SplitJoin(pieces[1..], sep);
      var t := [sep] + tail;
      assert t[1..] == tail;
      assert SplitOn(t, sep) == [""] + pieces[1..];
      SplitPrefix(w, t, sep);
      assert w + [sep] + tail == w + t;
      assert w + "" == w;
      assert ([""] + pieces[1..])[1..] == pieces[1..];
    }
  }

  /** The pieces of a string are the only separator-free decomposition that
      joins back to it. */
  lemma SplitUnique(s: string, pieces: seq<string>, sep: char)
    requires |pieces| >= 1
    requires forall k :: 0 <= k < |pieces| ==> sep !in pieces[k]
    requires Join(pieces, sep) == s
    ensures pieces == SplitOn(s, sep)
  {
    SplitJoin(pieces, sep);
  }

  /** Appending one more piece at the end adds one separator and the piece. */
  lemma {:induction false} JoinSnoc(pieces: seq<string>, t: string, sep: char)
    requires |pieces| >= 1
    ensures Join(pieces + [t], sep) == Join(pieces, sep) + [sep] + t
    decreases |pieces|
  {
    if |pieces| == 1 {
      assert (pieces + [t])[1..] == [t];
    } else {
      assert (pieces + [t])[1..] == pieces[1..] + [t];
      JoinSnoc(pieces[1..], t, sep);
    }
  }
}
