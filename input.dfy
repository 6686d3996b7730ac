/** The player's console input as one stream of characters: a bet is read as a
    whitespace-delimited word, a hit-or-stand choice as the next non-blank character. */
module Input {

  datatype Option<T> = None | Some(value: T)

  /** The characters formatted extraction treats as blanks. */
  predicate IsBlank(c: char)
  {
    c == ' ' || c == '\t' || c == '\n' || c == '\r' || c == '\U{B}' || c == '\U{C}'
  }

  predicate NoBlanks(s: string)
  {
    forall i :: 0 <= i < |s| ==> !IsBlank(s[i])
  }

  predicate AllBlank(s: string)
  {
    forall i :: 0 <= i < |s| ==> IsBlank(s[i])
  }

  /** The stream after the leading blanks. */
  function SkipBlanks(s: string): (r: string)
    ensures |r| <= |s|
    decreases |s|
  {
    if s != [] && IsBlank(s[0]) then SkipBlanks(s[1..]) else s
  }

  /** Skipping blanks drops a prefix made only of blanks and stops at a non-blank or the end. */
  lemma {:induction false} SkipBlanksSpec(s: string)
    ensures var r := SkipBlanks(s);
      r == s[|s| - |r|..] && (r == [] || !IsBlank(r[0])) && AllBlank(s[..|s| - |r|])
    decreases |s|
  {
    if s != [] && IsBlank(s[0]) {
      SkipBlanksSpec(s[1..]);
      var r := SkipBlanks(s);
      assert s[1..][|s| - 1 - |r|..] == s[|s| - |r|..];
      assert s[..|s| - |r|] == [s[0]] + s[1..][..|s| - 1 - |r|];
    } else {
      assert s[..0] == [];
    }
  }

  /** The longest blank-free prefix of the stream. */
  function WordPrefix(s: string): (n: nat)
    ensures n <= |s|
    decreases |s|
  {
    if s == [] || IsBlank(s[0]) then 0 else 1 + WordPrefix(s[1..])
  }

  lemma {:induction false} WordPrefixSpec(s: string)
    ensures var n := WordPrefix(s); NoBlanks(s[..n]) && (n < |s| ==> IsBlank(s[n]))
    ensures s != [] && !IsBlank(s[0]) ==> WordPrefix(s) > 0
    decreases |s|
  {
    if s != [] && !IsBlank(s[0]) {
      WordPrefixSpec(s[1..]);
      var n := WordPrefix(s);
      assert s[..n] == [s[0]] + s[1..][..n - 1];
    }
  }

  /** Reading a string: skip blanks, then take characters up to the next blank. Nothing is
      read when only blanks remain. */
  function ReadWord(s: string): (r: Option<(string, string)>)
    ensures r.Some? ==> |r.value.0| > 0 && |r.value.0| + |r.value.1| <= |s|
  {
    var t := SkipBlanks(s);
    if t == [] then None
    else
      SkipBlanksSpec(s);
      WordPrefixSpec(t);
      var n := WordPrefix(t);
      Some((t[..n], t[n..]))
  }

  /** Nothing is read exactly when only blanks remain; a word read is non-empty and free of
      blanks, and what follows it is empty or starts with a blank. */
  lemma ReadWordSpec(s: string)
    ensures ReadWord(s).None? <==> AllBlank(s)
    ensures ReadWord(s).Some? ==> var (w, rest) := ReadWord(s).value;
      |w| > 0 && NoBlanks(w) && (rest == [] || IsBlank(rest[0]))
  {
    var t := SkipBlanks(s);
    SkipBlanksSpec(s);
    if t == [] {
      assert s[..|s|] == s;
    } else {
      assert !AllBlank(s) by {
        assert s[|s| - |t|] == t[0];
      }
      WordPrefixSpec(t);
    }
  }

  /** Reading a character: skip blanks, then take one. Nothing is read when only blanks
      remain. */
  function ReadChoice(s: string): (r: Option<(char, string)>)
    ensures r.Some? ==> |r.value.1| < |s|
  {
    var t := SkipBlanks(s);
    if t == [] then None else Some((t[0], t[1..]))
  }

  /** Nothing is read exactly when only blanks remain, and the character read is not blank. */
  lemma ReadChoiceSpec(s: string)
    ensures ReadChoice(s).None? <==> AllBlank(s)
    ensures ReadChoice(s).Some? ==> !IsBlank(ReadChoice(s).value.0)
  {
    var t := SkipBlanks(s);
    SkipBlanksSpec(s);
    if t == [] {
      assert s[..|s|] == s;
    } else {
      assert !AllBlank(s) by {
        assert s[|s| - |t|] == t[0];
      }
    }
  }

  /** A word typed after some blanks and followed by a blank (or the end) is read back
      exactly, and the rest of the stream is left as it was. */
  lemma {:induction false} ReadWordTyped(blanks: string, w: string, rest: string)
    requires AllBlank(blanks) && |w| > 0 && NoBlanks(w)
    requires rest == [] || IsBlank(rest[0])
    ensures ReadWord(blanks + w + rest) == Some((w, rest))
    decreases |blanks|
  {
    if blanks == [] {
      assert blanks + w + rest == w + rest;
      WordOfTyped(w, rest);
    } else {
      assert (blanks + w + rest)[1..] == blanks[1..] + w + rest;
      ReadWordTyped(blanks[1..], w, rest);
    }
  }

  lemma {:induction false} WordOfTyped(w: string, rest: string)
    requires NoBlanks(w)
    requires rest == [] || IsBlank(rest[0])
    ensures WordPrefix(w + rest) == |w|
    ensures (w + rest)[..|w|] == w && (w + rest)[|w|..] == rest
    decreases |w|
  {
    if w != [] {
      assert (w + rest)[1..] == w[1..] + rest;
      WordOfTyped(w[1..], rest);
    } else {
      assert w + rest == rest;
    }
  }

  /** A choice typed after some blanks is read back exactly. */
  lemma {:induction false} ReadChoiceTyped(blanks: string, c: char, rest: string)
    requires AllBlank(blanks) && !IsBlank(c)
    ensures ReadChoice(blanks + [c] + rest) == Some((c, rest))
    decreases |blanks|
  {
    if blanks == [] {
      assert blanks + [c] + rest == [c] + rest;
    } else {
      assert (blanks + [c] + rest)[1..] == blanks[1..] + [c] + rest;
      ReadChoiceTyped(blanks[1..], c, rest);
    }
  }
}
