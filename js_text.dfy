/**
 * Small optional-value wrapper shared by the other modules.
 */
module Wrappers {
  datatype Option<+T> = None | Some(value: T)
}

/**
 * The JavaScript string operations the application relies on, stated on
 * Dafny strings (sequences of Unicode scalar values): the UTF-16 length that
 * `String.prototype.length` reports, `trim`, `split` on one character and
 * `Array.prototype.join`.
 */
module JsText {

  /** The characters JavaScript's `trim` removes and its regular-expression
      class `\s` matches: the WhiteSpace and LineTerminator code points. */
  predicate IsWhitespace(c: char) {
    c == '\t' || c == '\n' || c == '\U{B}' || c == '\U{C}' || c == '\r' || c == ' '
    || c == '\U{A0}' || c == '\U{1680}' || ('\U{2000}' <= c <= '\U{200A}')
    || c == '\U{2028}' || c == '\U{2029}' || c == '\U{202F}' || c == '\U{205F}'
    || c == '\U{3000}' || c == '\U{FEFF}'
  }

  /** Number of UTF-16 code units of `s`: what `s.length` is in JavaScript. */
  function Utf16Length(s: string): (n: nat)
    ensures |s| <= n <= 2 * |s|
    ensures (forall i :: 0 <= i < |s| ==> s[i] as int < 0x1_0000) ==> n == |s|
  {
    if s == [] then 0
    else (if s[0] as int < 0x1_0000 then 1 else 2) + Utf16Length(s[1..])
  }

  /** The UTF-16 length of one character: two code units above U+FFFF. */
  lemma Utf16LengthOfChar(c: char)
    ensures Utf16Length([c]) == if c as int < 0x1_0000 then 1 else 2
  {
    assert [c][1..] == [];
  }

  /** The UTF-16 length of a concatenation is the sum of the lengths. */
  lemma {:induction false} Utf16LengthAppend(a: string, b: string)
    ensures Utf16Length(a + b) == Utf16Length(a) + Utf16Length(b)
  {
    if a != [] {
      assert (a + b)[0] == a[0];
      assert (a + b)[1..] == a[1..] + b;
      Utf16LengthAppend(a[1..], b);
    } else {
      assert a + b == b;
    }
  }

  /** Removes leading whitespace (also the effect of a regex tail `\s*`). */
  function TrimStart(s: string): (r: string)
    ensures |r| <= |s| && r == s[|s| - |r|..]
    ensures r == [] || !IsWhitespace(r[0])
    ensures forall i :: 0 <= i < |s| - |r| ==> IsWhitespace(s[i])
  {
    if s != [] && IsWhitespace(s[0]) then TrimStart(s[1..]) else s
  }

  /** Removes trailing whitespace. */
  function TrimEnd(s: string): (r: string)
    ensures |r| <= |s| && r == s[..|r|]
    ensures r == [] || !IsWhitespace(r[|r| - 1])
    ensures forall i :: |r| <= i < |s| ==> IsWhitespace(s[i])
  {
    if s != [] && IsWhitespace(s[|s| - 1]) then TrimEnd(s[..|s| - 1]) else s
  }

  /** `String.prototype.trim`: both ends stripped; it is empty exactly when
      the string is nothing but whitespace. */
  function Trim(s: string): (r: string)
    ensures |r| <= |s|
    ensures r == [] || (!IsWhitespace(r[0]) && !IsWhitespace(r[|r| - 1]))
    ensures r == [] <==> forall k :: 0 <= k < |s| ==> IsWhitespace(s[k])
  {
    var e := TrimEnd(s);
    assert forall k :: 0 <= k < |e| ==> e[k] == s[k];
    TrimStart(e)
  }

  /** The trim is the infix of `s` with only whitespace around it. */
  lemma TrimIsInfix(s: string)
    ensures exists i, j :: 0 <= i <= j <= |s| && Trim(s) == s[i..j]
                        && (forall k :: 0 <= k < i ==> IsWhitespace(s[k]))
                        && (forall k :: j <= k < |s| ==> IsWhitespace(s[k]))
  {
    var e := TrimEnd(s);
    var r := TrimStart(e);
    assert r == s[|e| - |r|..|e|];
  }

  /** A slice holds no character its whole does not hold. */
  lemma SliceAvoids(s: string, i: nat, j: nat, c: char)
    requires i <= j <= |s| && c !in s
    ensures c !in s[i..j]
  {
    forall k | 0 <= k < j - i ensures s[i..j][k] != c {
      assert s[i..j][k] == s[i + k];
    }
  }

  /** Trimming adds no character. */
  lemma TrimAvoids(s: string, c: char)
    requires c !in s
    ensures c !in Trim(s)
  {
    var e := TrimEnd(s);
    SliceAvoids(s, 0, |e|, c);
    SliceAvoids(e, |e| - |Trim(s)|, |e|, c);
  }

  /** A string with no whitespace at either end is its own trim. */
  lemma TrimmedIsFixed(s: string)
    requires s == [] || (!IsWhitespace(s[0]) && !IsWhitespace(s[|s| - 1]))
    ensures Trim(s) == s
  {
  }

  /** Number of occurrences of `c` in `s`. */
  function Count(s: string, c: char): nat {
    if s == [] then 0 else (if s[0] == c then 1 else 0) + Count(s[1..], c)
  }

  /** `s.split(sep)` for a one-character separator: the pieces between the
      occurrences of `sep`, always at least one (`"".split("\n")` is `[""]`). */
  function Split(s: string, sep: char): (r: seq<string>)
    ensures |r| == Count(s, sep) + 1
    ensures forall i :: 0 <= i < |r| ==> sep !in r[i]
  {
    if s == [] then [[]]
    else
      var rest := Split(s[1..], sep);
      if s[0] == sep then [[]] + rest else [[s[0]] + rest[0]] + rest[1..]
  }

  /** `parts.join(sep)`: it begins with the first part. */
  function Join(parts: seq<string>, sep: string): (r: string)
    ensures |parts| >= 1 ==> |parts[0]| <= |r| && r[..|parts[0]|] == parts[0]
  {
    if |parts| == 0 then []
    else if |parts| == 1 then parts[0]
    else parts[0] + sep + Join(parts[1..], sep)
  }

  /** A string without the separator splits into itself alone. */
  lemma {:induction false} SplitWithoutSeparator(s: string, sep: char)
    requires sep !in s
    ensures Split(s, sep) == [s]
  {
    if s != [] {
      SplitWithoutSeparator(s[1..], sep);
      assert [s[0]] + s[1..] == s;
    }
  }

  /** Splitting distributes over a separator: the pieces of `a` come first,
      then the pieces of `b`. */
  lemma {:induction false} SplitAroundSeparator(a: string, b: string, sep: char)
    ensures Split(a + [sep] + b, sep) == Split(a, sep) + Split(b, sep)
  {
    if a == [] {
      assert a + [sep] + b == [sep] + b;
      assert ([sep] + b)[1..] == b;
    } else {
      assert (a + [sep] + b)[1..] == a[1..] + [sep] + b;
      SplitAroundSeparator(a[1..], b, sep);
      var ra := Split(a[1..], sep);
      var rest := Split(a[1..] + [sep] + b, sep);
      if a[0] != sep {
        assert rest[0] == ra[0];
        assert rest[1..] == ra[1..] + Split(b, sep);
      }
    }
  }

  /** `join` then `split` on the same separator gives the parts back. */
  lemma {:induction false} SplitJoin(parts: seq<string>, sep: char)
    requires |parts| >= 1
    requires forall i :: 0 <= i < |parts| ==> sep !in parts[i]
    ensures Split(Join(parts, [sep]), sep) == parts
  {
    if |parts| == 1 {
      SplitWithoutSeparator(parts[0], sep);
    } else {
      SplitWithoutSeparator(parts[0], sep);
      SplitJoin(parts[1..], sep);
      SplitAroundSeparator(parts[0], Join(parts[1..], [sep]), sep);
      assert parts == [parts[0]] + parts[1..];
    }
  }

  /** `split` then `join` on the same separator gives the string back. */
  lemma {:induction false} JoinSplit(s: string, sep: char)
    ensures Join(Split(s, sep), [sep]) == s
  {
    if s != [] {
      var rest := Split(s[1..], sep);
      JoinSplit(s[1..], sep);
      if s[0] == sep {
        JoinCons([], rest, [sep]);
        assert [] + [sep] + s[1..] == s;
      } else if |rest| == 1 {
        assert Split(s, sep) == [[s[0]] + rest[0]];
        assert [s[0]] + s[1..] == s;
      } else {
        var head := [s[0]] + rest[0];
        JoinCons(head, rest[1..], [sep]);
        assert Split(s, sep) == [head] + rest[1..];
        assert Join(rest, [sep]) == rest[0] + [sep] + Join(rest[1..], [sep]);
        assert [s[0]] + s[1..] == s;
      }
    }
  }

  /** Joining a non-empty list with one more part on the front. */
  lemma JoinCons(p: string, parts: seq<string>, sep: string)
    requires |parts| >= 1
    ensures Join([p] + parts, sep) == p + sep + Join(parts, sep)
  {
    assert ([p] + parts)[1..] == parts;
  }
}
