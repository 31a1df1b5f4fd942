/**
 Turning the text of one command into its argument vector (the five
 copy-pasted tokenizing blocks of start_process in JCshell.c).

 Each block copies the command into a scratch buffer, overwrites one
 trailing newline with the terminator, and then calls `strtok(…, " ")`
 repeatedly, keeping at most 30 tokens. `strtok` skips runs of the
 delimiter, so a token is a maximal run of non-space characters and empty
 tokens never appear. Only `' '` is a delimiter: tabs stay inside tokens.
 */
module Tokenize {
  import opened Wrappers
  import opened Text

  /** The loop bound of every tokenizing block, and the size of each
      `arguments` array (`maxString`). */
  const MaxArgs: nat := 30

  const Space: char := ' '

  /** Removes one trailing newline, if there is one. */
  function StripNewline(seg: string): (r: string)
    ensures |seg| - 1 <= |r| <= |seg|
    ensures r == seg[..|r|]
    ensures |r| < |seg| <==> |seg| > 0 && seg[|seg| - 1] == '\n'
  {
    if |seg| > 0 && seg[|seg| - 1] == '\n' then seg[..|seg| - 1] else seg
  }

  /** Keeps the non-empty strings of `xs`, in order. */
  function NonEmpty(xs: seq<string>): (ys: seq<string>)
    ensures |ys| <= |xs|
    ensures forall k :: 0 <= k < |ys| ==> ys[k] != "" && ys[k] in xs
  {
    if |xs| == 0 then []
    else if xs[0] == "" then NonEmpty(xs[1..])
    else [xs[0]] + NonEmpty(xs[1..])
  }

  /** `NonEmpty` filters in order: filtering a concatenation filters each
      part and keeps them in sequence. */
  lemma {:induction false} NonEmptyAppend(xs: seq<string>, ys: seq<string>)
    ensures NonEmpty(xs + ys) == NonEmpty(xs) + NonEmpty(ys)
    decreases |xs|
  {
    if |xs| == 0 {
      assert xs + ys == ys;
    } else {
      assert (xs + ys)[0] == xs[0];
      assert (xs + ys)[1..] == xs[1..] + ys;
      NonEmptyAppend(xs[1..], ys);
    }
  }

  /** What successive `strtok(…, " ")` calls return: the pieces between
      spaces, with the empty ones dropped. */
  function Tokens(s: string): (toks: seq<string>)
    ensures forall k :: 0 <= k < |toks| ==> toks[k] != "" && Space !in toks[k]
  {
    NonEmpty(SplitOn(s, Space))
  }

  /** The first `n` elements of `xs`, or all of them if there are fewer. */
  function Take(xs: seq<string>, n: nat): (ys: seq<string>)
    ensures |ys| <= n && |ys| <= |xs|
    ensures ys == xs[..|ys|]
    ensures |ys| < n ==> ys == xs
  {
    if |xs| <= n then xs else xs[..n]
  }

  /** The argument vector built for one command. */
  function Argv(seg: string): (argv: seq<string>)
    ensures |argv| <= MaxArgs && |argv| <= |Tokens(StripNewline(seg))|
    ensures argv == Tokens(StripNewline(seg))[..|argv|]
    ensures |argv| < MaxArgs ==> argv == Tokens(StripNewline(seg))
    ensures forall k :: 0 <= k < |argv| ==> argv[k] != "" && Space !in argv[k]
  {
    Take(Tokens(StripNewline(seg)), MaxArgs)
  }

  /** A leading space is skipped: it starts no token. */
  lemma TokensSkipSpace(s: string)
    requires |s| > 0 && s[0] == Space
    ensures Tokens(s) == Tokens(s[1..])
  {
    assert SplitOn(s, Space) == [""] + SplitOn(s[1..], Space);
    assert ([""] + SplitOn(s[1..], Space))[1..] == SplitOn(s[1..], Space);
  }

  /** A run of `q` non-space characters at the front, ended by a space or by
      the end of the string, is the first token. */
  lemma TokensWord(s: string, q: nat)
    requires 0 < q <= |s|
    requires forall k :: 0 <= k < q ==> s[k] != Space
    requires q == |s| || s[q] == Space
    ensures Tokens(s) == [s[..q]] + Tokens(s[q..])
  {
    var w, t := s[..q], s[q..];
    assert s == w + t;
    SplitPrefix(w, t, Space);
    var r := SplitOn(t, Space);
    if q == |s| {
      assert t == "";
      assert w + "" == w;
      assert SplitOn(s, Space) == [w];
      assert NonEmpty([w]) == [w] + NonEmpty([]);
    } else {
      TokensSkipSpace(t);
      assert r == [""] + SplitOn(t[1..], Space);
      assert w + "" == w;
      assert SplitOn(s, Space) == [w] + SplitOn(t[1..], Space);
      assert ([w] + SplitOn(t[1..], Space))[1..] == SplitOn(t[1..], Space);
    }
  }

  /** No text, no tokens. */
  lemma TokensOfEmpty()
    ensures Tokens("") == []
  {
    assert SplitOn("", Space) == [""];
  }

  /** `TokensSkipSpace` at position `p` of `text`. */
  lemma SkipAt(text: string, p: nat)
    requires p < |text| && text[p] == Space
    ensures Tokens(text[p..]) == Tokens(text[p + 1..])
  {
    TokensSkipSpace(text[p..]);
    assert text[p..][1..] == text[p + 1..];
  }

  /** `TokensWord` at position `p` of `text`, for the run ending at `q`. */
  lemma WordAt(text: string, p: nat, q: nat)
    requires p < q <= |text|
    requires forall k :: p <= k < q ==> text[k] != Space
    requires q == |text| || text[q] == Space
    ensures Tokens(text[p..]) == [text[p..q]] + Tokens(text[q..])
  {
    TokensWord(text[p..], q - p);
    assert text[p..][..q - p] == text[p..q];
    assert text[p..][q - p..] == text[q..];
  }

  /** The strtok loop of one tokenizing block: skip delimiters, take the
      next run of non-delimiters as a token, stop after `MaxArgs` tokens or
      at the end of the text. */
  method Strtok(text: string) returns (argv: seq<string>)
    ensures argv == Take(Tokens(text), MaxArgs)
  {
    argv := [];
    var p := 0;
    while p < |text| && |argv| < MaxArgs
      invariant 0 <= p <= |text|
      invariant |argv| <= MaxArgs
      invariant argv + Tokens(text[p..]) == Tokens(text)
      decreases |text| - p
    {
      if text[p] == Space {
        SkipAt(text, p);
        p := p + 1;
      } else {
        var q := p;
        while q < |text| && text[q] != Space
          invariant p <= q <= |text|
          invariant forall k :: p <= k < q ==> text[k] != Space
        {
          q := q + 1;
        }
        WordAt(text, p, q);
        argv := argv + [text[p..q]];
        p := q;
      }
    }
    StrtokDone(text, argv, p);
  }

  /** When the strtok loop stops, the tokens collected are the first
      `MaxArgs` tokens of the text. */
  lemma StrtokDone(text: string, argv: seq<string>, p: nat)
    requires p <= |text| && |argv| <= MaxArgs
    requires argv + Tokens(text[p..]) == Tokens(text)
    requires p == |text| || |argv| == MaxArgs
    ensures argv == Take(Tokens(text), MaxArgs)
  {
    if p == |text| {
      assert text[p..] == "";
      TokensOfEmpty();
      assert argv + [] == argv;
    } else {
      assert Tokens(text)[..MaxArgs] == argv;
    }
  }

  /** One tokenizing block as a whole: strip the newline, then tokenize. */
  method TokenizeCommand(seg: string) returns (argv: seq<string>)
    ensures argv == Argv(seg)
  {
    var text := seg;
    if |seg| > 0 && seg[|seg| - 1] == '\n' {
      text := seg[..|seg| - 1];
    }
    argv := Strtok(text);
  }

  /** Spaces only separate: tokenizing words joined by single spaces gives
      back the words. */
  lemma TokensOfJoin(words: seq<string>)
    requires forall k :: 0 <= k < |words| ==> words[k] != "" && Space !in words[k]
    ensures Tokens(Join(words, Space)) == words
  {
    if |words| == 0 {
      assert SplitOn("", Space) == [""];
    } else {
      SplitJoin(words, Space);
      NonEmptyKeepsAll(words);
    }
  }

  /** Dropping empty strings from a list that has none changes nothing. */
  lemma {:induction false} NonEmptyKeepsAll(xs: seq<string>)
    requires forall k :: 0 <= k < |xs| ==> xs[k] != ""
    ensures NonEmpty(xs) == xs
  {
    if |xs| > 0 {
      NonEmptyKeepsAll(xs[1..]);
    }
  }

  // ---------------------------------------------------------------------
  // The first tokenizing block as written.
  //
  // When the first command does not end in a newline (every command before
  // a `|`), the block means to terminate the copy at `temp[commandLength]`
  // but compares instead of assigning, so `strtok` keeps reading whatever
  // the stack left after the copied characters, up to the first zero byte.
  // `residue` stands for those leftover characters.
  // ---------------------------------------------------------------------

  /** The text `strtok` sees in the first block as written. The C code
      reads `temp[-1]` for an empty command, so one is not modelled. */
  function FirstStageTextAsWritten(seg: string, residue: string): (text: string)
    requires |seg| > 0
    ensures StripNewline(seg) <= text
    ensures text == StripNewline(seg) <==> seg[|seg| - 1] == '\n' || residue == ""
    ensures seg[|seg| - 1] != '\n' ==> text[|StripNewline(seg)|..] == residue
  {
    if seg[|seg| - 1] == '\n' then seg[..|seg| - 1] else seg + residue
  }

  /** In `ls | wc`, the first command is `"ls "`; with the leftover bytes
      `"x"` after it, the first stage runs `ls x` instead of `ls`. */
  lemma FirstStageReadsPastCommand()
    ensures Tokens(FirstStageTextAsWritten("ls ", "x")) == ["ls", "x"]
    ensures Argv("ls ") == ["ls"]
  {
    assert FirstStageTextAsWritten("ls ", "x") == Join(["ls", "x"], Space);
    TokensOfJoin(["ls", "x"]);
    var t := "ls ";
    WordAt(t, 0, 2);
    SkipAt(t, 2);
    assert t[3..] == "";
    TokensOfEmpty();
    assert t[0..] == t;
  }

  // ---------------------------------------------------------------------
  // The NULL-terminated vector handed to execvp.
  //
  // Each block keeps up to `MaxArgs` tokens and then stores NULL after the
  // last one, but the array only has `MaxArgs` slots, so with 30 tokens
  // the terminator goes one past the end. The corrected array has one
  // slot more.
  // ---------------------------------------------------------------------

  /** Slots of the `arguments` arrays as declared (`char *arguments[maxString]`). */
  const ArgvSlotsAsWritten: nat := MaxArgs

  /** Slots needed for `MaxArgs` tokens and their terminator. */
  const ArgvSlots: nat := MaxArgs + 1

  /** The array of `slots` entries holding `argv` followed by the NULL
      terminator (`None`); `None` as a whole when the terminator falls
      outside the array. */
  function ExecVector(argv: seq<string>, slots: nat): (v: Option<seq<Option<string>>>)
    ensures v.Some? <==> |argv| < slots
    ensures v.Some? ==> |v.value| == |argv| + 1 && v.value[|argv|] == None
    ensures v.Some? ==> forall k :: 0 <= k < |argv| ==> v.value[k] == Some(argv[k])
  {
    if |argv| < slots then Some(seq(|argv|, k requires 0 <= k < |argv| => Some(argv[k])) + [None])
    else None
  }

  /** Thirty one-letter words separated by spaces. */
  function ThirtyWords(): string
  {
    Join(seq(MaxArgs, k => "a"), Space)
  }

  /** With the declared array size, thirty words overflow the vector. */
  lemma ThirtyWordsOverflow()
    ensures ExecVector(Argv(ThirtyWords()), ArgvSlotsAsWritten).None?
  {
    ThirtyWordsNoNewline();
    ThirtyWordsTokens();
  }

  lemma ThirtyWordsNoNewline()
    ensures StripNewline(ThirtyWords()) == ThirtyWords()
  {
    var words := seq(MaxArgs, k => "a");
    var s := ThirtyWords();
    JoinEndsWithLast(words, Space);
    assert s[|s| - 1] == 'a';
  }

  lemma ThirtyWordsTokens()
    ensures |Tokens(ThirtyWords())| == MaxArgs
  {
    TokensOfJoin(seq(MaxArgs, k => "a"));
  }

  /** Joining ends with the last piece. */
  lemma {:induction false} JoinEndsWithLast(pieces: seq<string>, sep: char)
    requires |pieces| >= 1 && pieces[|pieces| - 1] != ""
    ensures |Join(pieces, sep)| > 0
    ensures Join(pieces, sep)[|Join(pieces, sep)| - 1] == pieces[|pieces| - 1][|pieces[|pieces| - 1]| - 1]
    decreases |pieces|
  {
    if |pieces| > 1 {
      JoinEndsWithLast(pieces[1..], sep);
    }
  }

  /** With one slot for the terminator, every command's vector fits. */
  lemma ExecVectorFits(seg: string)
    ensures ExecVector(Argv(seg), ArgvSlots).Some?
    ensures ExecVector(Argv(seg), ArgvSlots).value[|Argv(seg)|] == None
  {
  }
}
