/** Python string operations used by the core: `str.strip()`, `str.split(sep)`,
    `sep.join(parts)`, `str.upper()` and the slice `s[:n]`. */
module Strings {

  /** Python's `str.isspace()` for one character: the code points that
      `str.strip()` with no argument removes. */
  predicate IsSpace(c: char) {
    var n := c as int;
    n == 0x20 || 0x09 <= n <= 0x0D || 0x1C <= n <= 0x1F || n == 0x85 || n == 0xA0 ||
    n == 0x1680 || 0x2000 <= n <= 0x200A || n == 0x2028 || n == 0x2029 ||
    n == 0x202F || n == 0x205F || n == 0x3000
  }

  /** `s.lstrip()`: the longest suffix of `s` that does not start with whitespace. */
  function TrimLeft(s: string): (r: string)
    ensures |r| <= |s| && r == s[|s| - |r|..]
    ensures |r| > 0 ==> !IsSpace(r[0])
    ensures forall k :: 0 <= k < |s| - |r| ==> IsSpace(s[k])
  {
    if |s| > 0 && IsSpace(s[0]) then TrimLeft(s[1..]) else s
  }

  /** `s.rstrip()`: the longest prefix of `s` that does not end with whitespace. */
  function TrimRight(s: string): (r: string)
    ensures |r| <= |s| && r == s[..|r|]
    ensures |r| > 0 ==> !IsSpace(r[|r| - 1])
    ensures forall k :: |r| <= k < |s| ==> IsSpace(s[k])
  {
    if |s| > 0 && IsSpace(s[|s| - 1]) then TrimRight(s[..|s| - 1]) else s
  }

  /** `s.strip()`: `s` without its leading and trailing whitespace. The result
      neither starts nor ends with whitespace. */
  function Strip(s: string): (r: string)
    ensures |r| <= |s|
    ensures |r| > 0 ==> !IsSpace(r[0]) && !IsSpace(r[|r| - 1])
  {
    TrimRight(TrimLeft(s))
  }

  /** Stripping leaves nothing exactly when the input is all whitespace. */
  lemma StripEmptyIffBlank(s: string)
    ensures Strip(s) == "" <==> forall k :: 0 <= k < |s| ==> IsSpace(s[k])
  {
    var t := TrimLeft(s);
    if |t| > 0 {
      assert t[0] == s[|s| - |t|];
      assert !IsSpace(t[0]);
    }
  }

  /** `r` is the piece of `s` that starts at `i`, and everything of `s`
      before and after that piece is whitespace. */
  predicate IsTrimmedPiece(s: string, r: string, i: nat) {
    && i + |r| <= |s|
    && r == s[i..i + |r|]
    && (forall k :: 0 <= k < i ==> IsSpace(s[k]))
    && (forall k :: i + |r| <= k < |s| ==> IsSpace(s[k]))
  }

  /** Stripping removes exactly the leading and trailing whitespace: the result
      is the piece of the input that starts where `lstrip()` stops, with only
      whitespace before and after it. */
  lemma {:induction false} StripIsTrim(s: string)
    ensures IsTrimmedPiece(s, Strip(s), |s| - |TrimLeft(s)|)
  {
    var t := TrimLeft(s);
    var r := TrimRight(t);
    assert r == Strip(s);
    TrimmedPiece(s, t, r);
  }

  /** A prefix `r` of a suffix `t` of `s`, with only whitespace cut off on
      either side, is the piece of `s` between that whitespace. */
  lemma {:induction false} TrimmedPiece(s: string, t: string, r: string)
    requires |t| <= |s| && t == s[|s| - |t|..]
    requires forall k :: 0 <= k < |s| - |t| ==> IsSpace(s[k])
    requires |r| <= |t| && r == t[..|r|]
    requires forall k :: |r| <= k < |t| ==> IsSpace(t[k])
    ensures IsTrimmedPiece(s, r, |s| - |t|)
  {
    var i := |s| - |t|;
    assert r == s[i..i + |r|];
    forall k | i + |r| <= k < |s|
      ensures IsSpace(s[k])
    {
      assert s[k] == t[k - i];
    }
  }

  /** Every character of the stripped text occurs in the input. */
  lemma StripKeepsChars(s: string)
    ensures forall c :: c in Strip(s) ==> c in s
  {
    var t := TrimLeft(s);
    var r := TrimRight(t);
    assert forall k :: 0 <= k < |r| ==> r[k] == s[|s| - |t| + k];
  }

  /** `s.split(sep)` with an explicit one-character separator: every separator
      ends a field, empty fields are kept, and there is always at least one field. */
  function Split(s: string, sep: char): (parts: seq<string>)
    ensures |parts| >= 1
  {
    if |s| == 0 then [""]
    else if s[0] == sep then [""] + Split(s[1..], sep)
    else Extend(s[0], Split(s[1..], sep))
  }

  /** Puts `c` in front of the first field. */
  function Extend(c: char, parts: seq<string>): (r: seq<string>)
    requires |parts| >= 1
    ensures |r| == |parts| && r[0] == [c] + parts[0] && r[1..] == parts[1..]
  {
    [[c] + parts[0]] + parts[1..]
  }

  /** Extending the first field is unaffected by fields appended at the end. */
  lemma ExtendAppend(c: char, parts: seq<string>, tail: seq<string>)
    requires |parts| >= 1
    ensures Extend(c, parts + tail) == Extend(c, parts) + tail
  {
    assert (parts + tail)[0] == parts[0];
    assert (parts + tail)[1..] == parts[1..] + tail;
  }

  /** No field of a split contains the separator. */
  lemma {:induction false} SplitFieldsAvoidSep(s: string, sep: char)
    ensures forall p :: p in Split(s, sep) ==> sep !in p
  {
    if |s| > 0 {
      SplitFieldsAvoidSep(s[1..], sep);
      var rest := Split(s[1..], sep);
      if s[0] != sep {
        var parts := Extend(s[0], rest);
        assert forall p :: p in parts ==> p == parts[0] || p in rest[1..];
        assert forall p :: p in rest[1..] ==> p in rest;
        assert rest[0] in rest;
      }
    }
  }

  /** `sep.join(parts)`: nothing for no parts, and otherwise a text that starts
      with the first part and is exactly it when there is only one. */
  function Join(parts: seq<string>, sep: string): (r: string)
    ensures |parts| == 0 ==> r == ""
    ensures |parts| == 1 ==> r == parts[0]
    ensures |parts| >= 1 ==> parts[0] <= r
  {
    if |parts| == 0 then ""
    else if |parts| == 1 then parts[0]
    else parts[0] + sep + Join(parts[1..], sep)
  }

  /** Joining the fields of a split with the same separator gives back the input. */
  lemma {:induction false} JoinSplit(s: string, sep: char)
    ensures Join(Split(s, sep), [sep]) == s
  {
    if |s| > 0 {
      JoinSplit(s[1..], sep);
      assert s == [s[0]] + s[1..];
      if s[0] != sep {
        JoinExtend(s[0], Split(s[1..], sep), [sep]);
      }
    }
  }

  /** Joining after extending the first field puts the character in front. */
  lemma JoinExtend(c: char, parts: seq<string>, sep: string)
    requires |parts| >= 1
    ensures Join(Extend(c, parts), sep) == [c] + Join(parts, sep)
  {
  }


  /** Splitting a join of separator-free fields gives back the fields. */
  lemma {:induction false} SplitJoin(parts: seq<string>, sep: char)
    requires |parts| >= 1
    requires forall p :: p in parts ==> sep !in p
    ensures Split(Join(parts, [sep]), sep) == parts
  {
    if |parts| == 1 {
      SplitFieldOnly(parts[0], sep);
    } else {
      SplitJoin(parts[1..], sep);
      SplitConcat(parts[0], Join(parts[1..], [sep]), sep);
      SplitFieldOnly(parts[0], sep);
      assert parts == [parts[0]] + parts[1..];
    }
  }

  /** A string without the separator splits into itself alone. */
  lemma {:induction false} SplitFieldOnly(s: string, sep: char)
    requires sep !in s
    ensures Split(s, sep) == [s]
  {
    if |s| > 0 {
      SplitFieldOnly(s[1..], sep);
      assert s == [s[0]] + s[1..];
    }
  }

  /** A separator between two strings separates their fields: splitting is a
      homomorphism from `a + sep + b` to the concatenation of the field lists. */
  lemma {:induction false} SplitConcat(a: string, b: string, sep: char)
    ensures Split(a + [sep] + b, sep) == Split(a, sep) + Split(b, sep)
  {
    var s := a + [sep] + b;
    if |a| == 0 {
      assert s == [sep] + b;
      assert s[1..] == b;
    } else {
      SplitConcat(a[1..], b, sep);
      assert s[1..] == a[1..] + [sep] + b;
      SplitConsStep(a, s, sep, Split(b, sep));
    }
  }

  /** One step of `SplitConcat`: `a` and `s` share their first character and the
      fields of `s[1..]` are those of `a[1..]` followed by `tail`. */
  lemma {:induction false} SplitConsStep(a: string, s: string, sep: char, tail: seq<string>)
    requires |a| > 0 && |s| > 0 && s[0] == a[0]
    requires Split(s[1..], sep) == Split(a[1..], sep) + tail
    ensures Split(s, sep) == Split(a, sep) + tail
  {
    var ra := Split(a[1..], sep);
    var rest := Split(s[1..], sep);
    if a[0] != sep {
      ExtendAppend(a[0], ra, tail);
    }
  }

  /** ASCII part of `str.upper()`: `a`..`z` become `A`..`Z`, every other
      character is kept. */
  function UpperChar(c: char): (u: char)
    ensures 'a' <= c <= 'z' ==> 'A' <= u <= 'Z' && u as int - c as int == 'A' as int - 'a' as int
    ensures !('a' <= c <= 'z') ==> u == c
  {
    if 'a' <= c <= 'z' then (c as int - 'a' as int + 'A' as int) as char else c
  }

  /** `s.upper()` over ASCII letters: same length, character by character. */
  function Upper(s: string): (u: string)
    ensures |u| == |s|
    ensures forall k :: 0 <= k < |s| ==> u[k] == UpperChar(s[k])
  {
    if |s| == 0 then "" else [UpperChar(s[0])] + Upper(s[1..])
  }

  /** The Python slice `s[:n]`: at most `n` leading characters. */
  function Prefix(s: string, n: nat): (r: string)
    ensures |r| == if |s| < n then |s| else n
    ensures r <= s
  {
    if |s| <= n then s else s[..n]
  }
}
