/** The JavaScript string primitives the core relies on: the `\s` class of
    regular expressions, `String.prototype.trim` (used by the Mongoose `trim`
    setter) and `String.prototype.toLowerCase` (the `lowercase` setter),
    the latter restricted to ASCII letters. */
module JsStrings {

  /** ECMAScript WhiteSpace and LineTerminator code points: what `\s` matches
      and what `trim` removes. */
  predicate IsJsSpace(c: char) {
    var n := c as int;
    n == 0x09 || n == 0x0A || n == 0x0B || n == 0x0C || n == 0x0D || n == 0x20 ||
    n == 0xA0 || n == 0x1680 || (0x2000 <= n <= 0x200A) || n == 0x2028 ||
    n == 0x2029 || n == 0x202F || n == 0x205F || n == 0x3000 || n == 0xFEFF
  }

  /** `s.trim()`: drops white space from both ends. */
  function Trim(s: string): string {
    if s != [] && IsJsSpace(s[0]) then Trim(s[1..])
    else if s != [] && IsJsSpace(s[|s| - 1]) then Trim(s[..|s| - 1])
    else s
  }

  /** The trimmed string is the piece `s[a..a + |Trim(s)|]` of the input: only
      white space lies outside it, and neither of its ends is white space. */
  lemma {:induction false} TrimIsInnerSlice(s: string) returns (a: nat)
    ensures a + |Trim(s)| <= |s| && Trim(s) == s[a..a + |Trim(s)|]
    ensures forall k :: 0 <= k < a ==> IsJsSpace(s[k])
    ensures forall k :: a + |Trim(s)| <= k < |s| ==> IsJsSpace(s[k])
    ensures Trim(s) == [] || (!IsJsSpace(Trim(s)[0]) && !IsJsSpace(Trim(s)[|Trim(s)| - 1]))
    decreases |s|
  {
    if s != [] && IsJsSpace(s[0]) {
      var rest := s[1..];
      var b := TrimIsInnerSlice(rest);
      a := b + 1;
      assert Trim(s) == Trim(rest);
      assert rest[b..b + |Trim(rest)|] == s[a..a + |Trim(s)|];
      forall k | a + |Trim(s)| <= k < |s|
        ensures IsJsSpace(s[k])
      {
        assert s[k] == rest[k - 1];
      }
      forall k | 1 <= k < a
        ensures IsJsSpace(s[k])
      {
        assert s[k] == rest[k - 1];
      }
    } else if s != [] && IsJsSpace(s[|s| - 1]) {
      var init := s[..|s| - 1];
      a := TrimIsInnerSlice(init);
      assert Trim(s) == Trim(init);
      assert init[a..a + |Trim(init)|] == s[a..a + |Trim(s)|];
      forall k | a + |Trim(s)| <= k < |s| - 1
        ensures IsJsSpace(s[k])
      {
        assert s[k] == init[k];
      }
    } else {
      a := 0;
    }
  }

  /** `trim` leaves a string unchanged once it has been trimmed. */
  lemma {:induction false} TrimIdempotent(s: string)
    ensures Trim(Trim(s)) == Trim(s)
  {
    var _ := TrimIsInnerSlice(s);
  }

  /** A string trims to nothing exactly when it is all white space. */
  lemma {:induction false} TrimEmptyIff(s: string)
    ensures Trim(s) == [] <==> forall k :: 0 <= k < |s| ==> IsJsSpace(s[k])
  {
    var a := TrimIsInnerSlice(s);
    if Trim(s) != [] && forall k :: 0 <= k < |s| ==> IsJsSpace(s[k]) {
      assert Trim(s)[0] == s[a];
    }
  }

  /** A string without white space is its own trim. */
  lemma TrimNoSpace(s: string)
    requires forall k :: 0 <= k < |s| ==> !IsJsSpace(s[k])
    ensures Trim(s) == s
  {
  }

  predicate IsAsciiUpper(c: char) {
    'A' <= c <= 'Z'
  }

  function LowerChar(c: char): char {
    if IsAsciiUpper(c) then (c as int + 32) as char else c
  }

  /** `s.toLowerCase()` on ASCII letters. */
  function Lower(s: string): string {
    if s == [] then [] else [LowerChar(s[0])] + Lower(s[1..])
  }

  /** Lower-casing keeps the length, leaves no capital, moves each capital
      to its small letter and keeps every other character. */
  lemma {:induction false} LowerSpec(s: string)
    ensures var r := Lower(s);
      |r| == |s| &&
      (forall k :: 0 <= k < |r| ==> !IsAsciiUpper(r[k])) &&
      (forall k :: 0 <= k < |s| && !IsAsciiUpper(s[k]) ==> r[k] == s[k]) &&
      (forall k :: 0 <= k < |s| && IsAsciiUpper(s[k]) ==> r[k] as int == s[k] as int + 32)
  {
    if s != [] {
      LowerSpec(s[1..]);
      var r := Lower(s);
      assert forall k :: 1 <= k < |s| ==> r[k] == Lower(s[1..])[k - 1] && s[k] == s[1..][k - 1];
    }
  }

  /** Lower-casing maps each character on its own. */
  lemma {:induction false} LowerAt(s: string)
    ensures |Lower(s)| == |s|
    ensures forall k :: 0 <= k < |s| ==> Lower(s)[k] == LowerChar(s[k])
  {
    if s != [] {
      LowerAt(s[1..]);
      assert forall k :: 1 <= k < |s| ==> Lower(s)[k] == Lower(s[1..])[k - 1] && s[k] == s[1..][k - 1];
    }
  }

  /** Trimming and lower-casing commute: a capital is never white space, and
      lower-casing never makes white space. */
  lemma {:induction false} TrimLowerCommute(s: string)
    ensures Trim(Lower(s)) == Lower(Trim(s))
    decreases |s|
  {
    var l := Lower(s);
    LowerAt(s);
    if s != [] && IsJsSpace(s[0]) {
      LowerAt(s[1..]);
      assert Lower(s[1..]) == l[1..];
      TrimLowerCommute(s[1..]);
    } else if s != [] && IsJsSpace(s[|s| - 1]) {
      var init := s[..|s| - 1];
      LowerAt(init);
      assert Lower(init) == l[..|l| - 1];
      TrimLowerCommute(init);
    } else if s != [] {
      assert !IsJsSpace(l[0]) && !IsJsSpace(l[|l| - 1]);
    }
  }

  /** Lower-casing changes nothing in a string without capitals. */
  lemma {:induction false} LowerNoUpper(s: string)
    requires forall k :: 0 <= k < |s| ==> !IsAsciiUpper(s[k])
    ensures Lower(s) == s
  {
    if s != [] {
      LowerNoUpper(s[1..]);
    }
  }
}
