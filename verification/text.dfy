/** JavaScript's `String.prototype.trim`, over Dafny strings.
    A character is removed from either end when it is a WhiteSpace or a
    LineTerminator code point in the sense of section 12.2 and 12.3 of
    ECMA-262. */
module Text {
  import opened Wrappers

  /** WhiteSpace and LineTerminator code points of ECMA-262. */
  predicate IsWhitespace(c: char) {
    || c == '\t' || c == '\n' || c == '\U{000B}' || c == '\U{000C}' || c == '\r'
    || c == ' ' || c == '\U{00A0}' || c == '\U{1680}'
    || ('\U{2000}' <= c <= '\U{200A}')
    || c == '\U{2028}' || c == '\U{2029}' || c == '\U{202F}' || c == '\U{205F}'
    || c == '\U{3000}' || c == '\U{FEFF}'
  }

  /** Every character of `s` is whitespace (vacuously true of ""). */
  predicate IsBlank(s: string) {
    forall i | 0 <= i < |s| :: IsWhitespace(s[i])
  }

  /** `s` neither starts nor ends with whitespace. */
  predicate IsTrimmed(s: string) {
    |s| == 0 || (!IsWhitespace(s[0]) && !IsWhitespace(s[|s| - 1]))
  }

  /** `s.trim()`: `s` without its leading and trailing whitespace, removed
      one character at a time from whichever end still has some. */
  function Trim(s: string): (r: string)
    ensures |r| <= |s|
    ensures IsTrimmed(r)
    decreases |s|
  {
    if |s| > 0 && IsWhitespace(s[0]) then Trim(s[1..])
    else if |s| > 0 && IsWhitespace(s[|s| - 1]) then Trim(s[..|s| - 1])
    else s
  }

  /** A concatenation is blank exactly when both parts are. */
  lemma BlankConcat(a: string, b: string)
    ensures IsBlank(a + b) <==> IsBlank(a) && IsBlank(b)
  {
    if IsBlank(a + b) {
      forall k | 0 <= k < |a| ensures IsWhitespace(a[k]) {
        assert a[k] == (a + b)[k];
      }
      forall k | 0 <= k < |b| ensures IsWhitespace(b[k]) {
        assert b[k] == (a + b)[|a| + k];
      }
    }
    if IsBlank(a) && IsBlank(b) {
      forall k | 0 <= k < |a + b| ensures IsWhitespace((a + b)[k]) {
        if k >= |a| { assert (a + b)[k] == b[k - |a|]; }
      }
    }
  }

  /** A slice of `s[1..]` between blank ends, seen as a slice of `s`, when
      `s[0]` is whitespace. */
  lemma SliceAfterFirst(s: string, i: nat, j: nat)
    requires |s| > 0 && IsWhitespace(s[0]) && i <= j <= |s| - 1
    requires IsBlank(s[1..][..i]) && IsBlank(s[1..][j..])
    ensures s[1..][i..j] == s[i + 1..j + 1]
    ensures IsBlank(s[..i + 1]) && IsBlank(s[j + 1..])
  {
    assert s[1..][j..] == s[j + 1..];
    assert s[..i + 1] == [s[0]] + s[1..][..i];
    BlankConcat([s[0]], s[1..][..i]);
  }

  /** A slice of `s[..|s| - 1]` between blank ends, seen as a slice of `s`,
      when the last character of `s` is whitespace. */
  lemma SliceBeforeLast(s: string, i: nat, j: nat)
    requires |s| > 0 && IsWhitespace(s[|s| - 1]) && i <= j <= |s| - 1
    requires IsBlank(s[..|s| - 1][..i]) && IsBlank(s[..|s| - 1][j..])
    ensures s[..|s| - 1][i..j] == s[i..j]
    ensures IsBlank(s[..i]) && IsBlank(s[j..])
  {
    var t := s[..|s| - 1];
    assert t[..i] == s[..i];
    assert s[j..] == t[j..] + [s[|s| - 1]];
    BlankConcat(t[j..], [s[|s| - 1]]);
  }

  /** What `trim` removes is whitespace, and from the two ends only:
      `Trim(s)` is the slice `s[i..j]` between a blank prefix and a blank
      suffix. */
  lemma {:induction false} TrimIsSlice(s: string) returns (i: nat, j: nat)
    ensures i <= j <= |s| && Trim(s) == s[i..j]
    ensures IsBlank(s[..i]) && IsBlank(s[j..])
    decreases |s|
  {
    if |s| > 0 && IsWhitespace(s[0]) {
      var i', j' := TrimIsSlice(s[1..]);
      SliceAfterFirst(s, i', j');
      i, j := i' + 1, j' + 1;
    } else if |s| > 0 && IsWhitespace(s[|s| - 1]) {
      i, j := TrimIsSlice(s[..|s| - 1]);
      SliceBeforeLast(s, i, j);
    } else {
      i, j := 0, |s|;
      assert s[0..|s|] == s;
    }
  }

  /** A string with no whitespace at either end is its own trim. */
  lemma TrimOfTrimmed(s: string)
    requires IsTrimmed(s)
    ensures Trim(s) == s
  {
  }

  /** Trimming twice is trimming once, so the services' second `trim` of an
      already trimmed body changes nothing. */
  lemma TrimIdempotent(s: string)
    ensures Trim(Trim(s)) == Trim(s)
  {
    TrimOfTrimmed(Trim(s));
  }

  /** `s.trim()` is empty exactly when `s` is all whitespace: this is the
      condition under which a name or a message body is rejected. */
  lemma {:induction false} TrimEmptyIffBlank(s: string)
    ensures |Trim(s)| == 0 <==> IsBlank(s)
    decreases |s|
  {
    if |s| > 0 && IsWhitespace(s[0]) {
      TrimEmptyIffBlank(s[1..]);
      assert IsBlank(s) <==> IsBlank(s[1..]) by {
        if IsBlank(s[1..]) {
          forall k | 0 <= k < |s| ensures IsWhitespace(s[k]) {
            if k > 0 { assert s[k] == s[1..][k - 1]; }
          }
        }
      }
    } else if |s| > 0 && IsWhitespace(s[|s| - 1]) {
      var t := s[..|s| - 1];
      TrimEmptyIffBlank(t);
      assert t[0] == s[0];
    } else if |s| > 0 {
      assert !IsWhitespace(s[0]);
    }
  }

  /** `!x || x.length === 0` for `x = field?.trim()`: the payload field is
      missing or holds only whitespace. */
  predicate Blank(field: Option<string>) {
    match field
    case None => true
    case Some(x) => |Trim(x)| == 0
  }
}
