/** The text layer of the BVH reader and writer: how a line is cut into words
    (String.Split(' '), String.Trim(), dropping empty pieces) and how integers are
    read and written (int.Parse, int.ToString). */
module Text {
  import opened Options

  /** Char.IsWhiteSpace: exactly the characters String.Trim() removes. */
  predicate IsWhiteSpace(c: char) {
    || c == ' '
    || ('\t' <= c <= '\r')
    || c == '\U{0085}' || c == '\U{00A0}' || c == '\U{1680}'
    || ('\U{2000}' <= c <= '\U{200A}')
    || c == '\U{2028}' || c == '\U{2029}' || c == '\U{202F}' || c == '\U{205F}' || c == '\U{3000}'
  }

  predicate AllWhiteSpace(s: string) {
    forall k :: 0 <= k < |s| ==> IsWhiteSpace(s[k])
  }

  predicate NoSpace(s: string) {
    forall k :: 0 <= k < |s| ==> s[k] != ' '
  }

  /** A word as the tokeniser delivers it: not empty, no space in it, and no
      white space at either end (a tab inside a word survives). */
  predicate IsToken(t: string) {
    && t != ""
    && NoSpace(t)
    && !IsWhiteSpace(t[0])
    && !IsWhiteSpace(t[|t| - 1])
  }

  // ---------------------------------------------------------------------------
  // String.Split(' ')
  // ---------------------------------------------------------------------------

  /** String.Split(' '): the pieces between single spaces; empty pieces are kept,
      so a line of n spaces gives n + 1 empty pieces. */
  function Split(s: string): (parts: seq<string>)
    ensures |parts| >= 1
  {
    if s == [] then [""]
    else
      var rest := Split(s[1..]);
      if s[0] == ' ' then [""] + rest
      else [[s[0]] + rest[0]] + rest[1..]
  }

  /** No piece of a split holds a space. */
  lemma {:induction false} SplitPiecesNoSpace(s: string)
    ensures forall k :: 0 <= k < |Split(s)| ==> NoSpace(Split(s)[k])
  {
    if s != [] {
      SplitPiecesNoSpace(s[1..]);
      var rest := Split(s[1..]);
      if s[0] != ' ' {
        assert NoSpace(rest[0]);
        assert NoSpace([s[0]] + rest[0]);
      }
    }
  }

  /** The pieces joined again with single spaces. */
  function JoinSpaces(parts: seq<string>): string
    requires |parts| >= 1
  {
    if |parts| == 1 then parts[0] else parts[0] + " " + JoinSpaces(parts[1..])
  }

  /** Split loses nothing: joining its pieces gives the line back. */
  lemma {:induction false} SplitJoin(s: string)
    ensures JoinSpaces(Split(s)) == s
  {
    if s != [] {
      var rest := Split(s[1..]);
      SplitJoin(s[1..]);
      if s[0] == ' ' {
        assert Split(s) == [""] + rest;
        assert ([""] + rest)[1..] == rest;
      } else if |rest| == 1 {
        assert Split(s) == [[s[0]] + rest[0]];
        assert s == [s[0]] + s[1..];
      } else {
        var parts := [[s[0]] + rest[0]] + rest[1..];
        assert parts[1..] == rest[1..];
        calc {
          JoinSpaces(parts);
          [s[0]] + rest[0] + " " + JoinSpaces(rest[1..]);
          [s[0]] + (rest[0] + " " + JoinSpaces(rest[1..]));
          [s[0]] + JoinSpaces(rest);
          [s[0]] + s[1..];
          s;
        }
      }
    }
  }

  /** A string with no space in it is a single piece. */
  lemma {:induction false} SplitNoSpace(s: string)
    requires NoSpace(s)
    ensures Split(s) == [s]
  {
    if s != [] {
      SplitNoSpace(s[1..]);
      assert s == [s[0]] + s[1..];
    }
  }

  /** Split of a line given by its first character and the rest. */
  lemma SplitCons(c: char, s: string)
    ensures Split([c] + s) == if c == ' ' then [""] + Split(s) else [[c] + Split(s)[0]] + Split(s)[1..]
  {
    assert ([c] + s)[1..] == s;
  }

  /** The first piece of a split absorbs a character put in front of it. */
  lemma MergeFirst(c: char, r: seq<string>, q: seq<string>)
    requires |r| >= 1
    ensures [[c] + (r + q)[0]] + (r + q)[1..] == ([[c] + r[0]] + r[1..]) + q
  {
    assert (r + q)[0] == r[0];
    assert (r + q)[1..] == r[1..] + q;
  }

  /** Splitting at a space splits the line into the pieces of either side. */
  lemma {:induction false} SplitAtSpace(a: string, b: string)
    ensures Split(a + " " + b) == Split(a) + Split(b)
  {
    var s := a + " " + b;
    if a == [] {
      assert s[0] == ' ' && s[1..] == b;
    } else {
      var c, a' := a[0], a[1..];
      assert s[0] == c;
      assert s[1..] == a' + " " + b;
      SplitAtSpace(a', b);
      if c == ' ' {
        assert Split(s) == [""] + (Split(a') + Split(b));
      } else {
        MergeFirst(c, Split(a'), Split(b));
      }
    }
  }

  // ---------------------------------------------------------------------------
  // String.Trim()
  // ---------------------------------------------------------------------------

  /** Leading white space removed: what is left is a suffix of s that is empty
      or starts with a non-white character. */
  function TrimStart(s: string): (r: string)
    ensures |r| <= |s| && r == s[|s| - |r|..]
    ensures r == [] || !IsWhiteSpace(r[0])
  {
    if s != [] && IsWhiteSpace(s[0]) then TrimStart(s[1..]) else s
  }

  /** What TrimStart cuts is all white space. */
  lemma {:induction false} TrimStartCut(s: string)
    ensures AllWhiteSpace(s[..|s| - |TrimStart(s)|])
  {
    if s != [] && IsWhiteSpace(s[0]) {
      TrimStartCut(s[1..]);
      var n := |s| - |TrimStart(s)|;
      assert s[..n] == [s[0]] + s[1..][..n - 1];
    }
  }

  /** Trailing white space removed: a prefix of s that is empty or ends with a
      non-white character. */
  function TrimEnd(s: string): (r: string)
    ensures |r| <= |s| && r == s[..|r|]
    ensures r == [] || !IsWhiteSpace(r[|r| - 1])
  {
    if s != [] && IsWhiteSpace(s[|s| - 1]) then TrimEnd(s[..|s| - 1]) else s
  }

  /** What TrimEnd cuts is all white space. */
  lemma {:induction false} TrimEndCut(s: string)
    ensures AllWhiteSpace(s[|TrimEnd(s)|..])
  {
    if s != [] && IsWhiteSpace(s[|s| - 1]) {
      var init := s[..|s| - 1];
      TrimEndCut(init);
      var n := |TrimEnd(s)|;
      assert s[n..] == init[n..] + [s[|s| - 1]];
    }
  }

  /** String.Trim(): white space removed at both ends, so neither end of the
      result is white. */
  function Trim(s: string): (r: string)
    ensures |r| <= |s|
    ensures r == [] || (!IsWhiteSpace(r[0]) && !IsWhiteSpace(r[|r| - 1]))
  {
    TrimEnd(TrimStart(s))
  }

  /** A piece without spaces keeps none after trimming. */
  lemma TrimNoSpace(s: string)
    requires NoSpace(s)
    ensures NoSpace(Trim(s))
  {
    var i := |s| - |TrimStart(s)|;
    assert Trim(s) == s[i..i + |Trim(s)|];
  }

  /** TrimStart removes white space put in front of a string that does not
      start with white space, and nothing else. */
  lemma {:induction false} TrimStartWhite(indent: string, t: string)
    requires AllWhiteSpace(indent) && (t == [] || !IsWhiteSpace(t[0]))
    ensures TrimStart(indent + t) == t
    decreases |indent|
  {
    if indent == [] {
      assert indent + t == t;
    } else {
      assert (indent + t)[0] == indent[0];
      assert (indent + t)[1..] == indent[1..] + t;
      TrimStartWhite(indent[1..], t);
    }
  }

  /** Trim removes white space put in front of a word and nothing of the word. */
  lemma TrimIndented(indent: string, t: string)
    requires AllWhiteSpace(indent) && IsToken(t)
    ensures Trim(indent + t) == t
  {
    TrimStartWhite(indent, t);
    assert TrimEnd(t) == t;
  }

  // ---------------------------------------------------------------------------
  // The tokeniser of BVHParser.Load
  // ---------------------------------------------------------------------------

  /** Each piece trimmed, empty ones dropped, in order. */
  function Clean(parts: seq<string>): (words: seq<string>)
    ensures |words| <= |parts|
  {
    if parts == [] then []
    else
      var t := Trim(parts[|parts| - 1]);
      Clean(parts[..|parts| - 1]) + (if t == "" then [] else [t])
  }

  lemma {:induction false} CleanAppend(a: seq<string>, b: seq<string>)
    ensures Clean(a + b) == Clean(a) + Clean(b)
  {
    if b != [] {
      var n := |b| - 1;
      assert (a + b)[..|a + b| - 1] == a + b[..n];
      assert (a + b)[|a + b| - 1] == b[n];
      CleanAppend(a, b[..n]);
    } else {
      assert a + b == a;
    }
  }

  /** Pieces without spaces clean to tokens. */
  lemma {:induction false} CleanTokens(parts: seq<string>)
    requires forall k :: 0 <= k < |parts| ==> NoSpace(parts[k])
    ensures forall k :: 0 <= k < |Clean(parts)| ==> IsToken(Clean(parts)[k])
  {
    if parts != [] {
      var init := parts[..|parts| - 1];
      var last := parts[|parts| - 1];
      assert forall k :: 0 <= k < |init| ==> NoSpace(init[k]);
      CleanTokens(init);
      var t := Trim(last);
      assert t != "" ==> IsToken(t) by {
        TrimNoSpace(last);
      }
      var tail := if t == "" then [] else [t];
      assert Clean(parts) == Clean(init) + tail;
      forall k | 0 <= k < |Clean(parts)|
        ensures IsToken(Clean(parts)[k])
      {
        if k < |Clean(init)| {
          assert Clean(parts)[k] == Clean(init)[k];
        } else {
          assert Clean(parts)[k] == t;
        }
      }
    }
  }

  lemma CleanSnoc(parts: seq<string>, i: nat)
    requires i < |parts|
    ensures Clean(parts[..i + 1]) == Clean(parts[..i]) + (if Trim(parts[i]) == "" then [] else [Trim(parts[i])])
  {
    assert parts[..i + 1][..i] == parts[..i];
  }

  /** The words of a line, as BVHParser.Load sees them. */
  function Tokenize(line: string): (words: seq<string>)
    ensures forall k :: 0 <= k < |words| ==> IsToken(words[k])
  {
    SplitPiecesNoSpace(line);
    CleanTokens(Split(line));
    Clean(Split(line))
  }

  /** No word is empty: the `words[wordIndex] == ""` test of ParseMotion can never hold. */
  lemma TokensNonEmpty(line: string, k: nat)
    requires k < |Tokenize(line)|
    ensures Tokenize(line)[k] != ""
  {
  }

  lemma {:induction false} TokenizeEmpty()
    ensures Tokenize("") == []
  {
    assert Split("") == [""];
    assert Trim("") == "";
  }

  /** A word after an indentation of tabs reads as that one word. */
  lemma {:induction false} TokenizeWord(indent: string, t: string)
    requires AllWhiteSpace(indent) && NoSpace(indent) && IsToken(t)
    ensures Tokenize(indent + t) == [t]
  {
    assert NoSpace(indent + t);
    SplitNoSpace(indent + t);
    TrimIndented(indent, t);
    assert [indent + t][..0] == [];
  }

  /** A space separates the words of both sides. */
  lemma {:induction false} TokenizeAtSpace(a: string, b: string)
    ensures Tokenize(a + " " + b) == Tokenize(a) + Tokenize(b)
  {
    SplitAtSpace(a, b);
    CleanAppend(Split(a), Split(b));
  }

  /** An indented word followed by a space and more text reads as that word
      and then the words of the rest. */
  lemma {:induction false} TokenizeLeading(indent: string, t: string, rest: string)
    requires AllWhiteSpace(indent) && NoSpace(indent) && IsToken(t)
    ensures Tokenize(indent + (t + " " + rest)) == [t] + Tokenize(rest)
  {
    assert indent + (t + " " + rest) == (indent + t) + " " + rest by {
      Regroup3(indent, t, " ", rest);
    }
    assert Tokenize((indent + t) + " " + rest) == Tokenize(indent + t) + Tokenize(rest) by {
      TokenizeAtSpace(indent + t, rest);
    }
    assert Tokenize(indent + t) == [t] by {
      TokenizeWord(indent, t);
    }
  }

  lemma Regroup3<T>(a: seq<T>, b: seq<T>, c: seq<T>, d: seq<T>)
    ensures a + (b + c + d) == (a + b) + c + d
  {
  }

  lemma HeadTail<T>(s: seq<T>)
    requires |s| >= 1
    ensures [s[0]] + s[1..] == s
  {
  }

  /** Words joined with single spaces, indented, read back as the same words. */
  lemma {:induction false} TokenizeJoined(indent: string, ts: seq<string>)
    requires AllWhiteSpace(indent) && NoSpace(indent)
    requires |ts| >= 1 && forall k :: 0 <= k < |ts| ==> IsToken(ts[k])
    ensures Tokenize(indent + JoinSpaces(ts)) == ts
    decreases |ts|
  {
    if |ts| == 1 {
      TokenizeWord(indent, ts[0]);
    } else {
      var tail := ts[1..];
      var rest := JoinSpaces(tail);
      assert JoinSpaces(ts) == ts[0] + " " + rest;
      assert IsToken(ts[0]);
      TokenizeLeading(indent, ts[0], rest);
      assert forall k :: 0 <= k < |tail| ==> IsToken(tail[k]) by {
        forall k | 0 <= k < |tail| ensures IsToken(tail[k]) {
          assert tail[k] == ts[k + 1];
        }
      }
      TokenizeJoined("", tail);
      assert "" + rest == rest;
      HeadTail(ts);
    }
  }

  // ---------------------------------------------------------------------------
  // int.Parse and int.ToString
  // ---------------------------------------------------------------------------

  const Int32Min: int := -0x8000_0000
  const Int32Max: int := 0x7FFF_FFFF

  /** C#'s int. */
  type Int32 = x: int | Int32Min <= x <= Int32Max

  predicate IsDigit(c: char) {
    '0' <= c <= '9'
  }

  predicate AllDigits(s: string) {
    forall k :: 0 <= k < |s| ==> IsDigit(s[k])
  }

  /** The value of a string of decimal digits, most significant first. */
  function DigitsValue(s: string): nat
    requires AllDigits(s)
  {
    if s == [] then 0 else 10 * DigitsValue(s[..|s| - 1]) + (s[|s| - 1] as int - '0' as int)
  }

  /** int.Parse on a word: an optional sign and at least one decimal digit
      (leading and trailing white space, which int.Parse also allows, cannot
      occur in a word). None stands for the FormatException of a malformed
      word and the OverflowException of a value outside Int32. */
  function ParseInt(s: string): (r: Option<Int32>)
    ensures r.Some? ==> s != [] && (IsDigit(s[0]) || s[0] == '-' || s[0] == '+')
    ensures r.Some? && s[0] == '-' ==> r.value <= 0
    ensures r.Some? && s[0] != '-' ==> r.value >= 0
  {
    var negative := s != [] && s[0] == '-';
    var digits := if s != [] && (s[0] == '-' || s[0] == '+') then s[1..] else s;
    if digits == [] || !AllDigits(digits) then None
    else
      var v: int := if negative then -(DigitsValue(digits) as int) else DigitsValue(digits);
      if Int32Min <= v <= Int32Max then Some(v) else None
  }

  /** The decimal digits of n, without leading zeros. */
  function Digits(n: nat): (s: string)
    ensures |s| >= 1 && AllDigits(s) && DigitsValue(s) == n
    ensures s[0] == '0' ==> n == 0
  {
    if n < 10 then [('0' as int + n) as char]
    else
      var d := Digits(n / 10);
      var s := d + [('0' as int + n % 10) as char];
      assert s[..|s| - 1] == d;
      s
  }

  /** int.ToString(): a minus sign for negative values, then the digits. */
  function FormatInt(n: int): (s: string)
    ensures IsToken(s)
  {
    var s := if n < 0 then "-" + Digits(-n) else Digits(n);
    assert forall k :: 0 <= k < |s| ==> s[k] == '-' || IsDigit(s[k]);
    s
  }

  /** int.Parse reads back what int.ToString wrote. */
  lemma ParseFormatInt(n: Int32)
    ensures ParseInt(FormatInt(n)) == Some(n)
  {
    var s := FormatInt(n);
    if n < 0 {
      var m: nat := -(n as int);
      assert s[1..] == Digits(m);
    } else {
      assert s == Digits(n);
    }
  }

  /** `x++` on a C# int in an unchecked context: the 32-bit two's-complement
      sum, that is, the Int32 that equals x + 1 modulo 2^32. */
  function Inc32(x: Int32): (r: Int32)
    ensures (r - (x + 1)) % 0x1_0000_0000 == 0
  {
    if x == Int32Max then Int32Min else x + 1
  }

  /** Only one Int32 is congruent to x + 1 modulo 2^32, so the contract of
      Inc32 fixes its result: it is x + 1 when that fits, and wraps from the
      largest value to the smallest. */
  lemma Inc32Unique(x: Int32, y: Int32)
    requires (y - (x + 1)) % 0x1_0000_0000 == 0
    ensures y == Inc32(x)
    ensures x < Int32Max ==> y == x + 1
    ensures x == Int32Max ==> y == Int32Min
  {
    var d := y - (x + 1);
    assert -0x1_0000_0000 <= d < 0x1_0000_0000;
    assert d == 0 || d == -0x1_0000_0000 by {
      assert d % 0x1_0000_0000 == 0;
    }
  }

  // ---------------------------------------------------------------------------
  // float.Parse and float.ToString
  // ---------------------------------------------------------------------------

  /** float.Parse and float.ToString depend on the culture and runtime of the
      program, so the model takes them as a parameter. None is the exception
      float.Parse throws on a word that is not a number. */
  datatype FloatFormat = FloatFormat(parse: string -> Option<real>, show: real -> string)

  /** x is written as one word that is neither section keyword, and reads
      back as x. */
  predicate ShowsExactly(ff: FloatFormat, x: real) {
    var t := ff.show(x);
    IsToken(t) && t != "HIERARCHY" && t != "MOTION" && ff.parse(t) == Some(x)
  }
}
