/** String operations the application relies on, stated over `seq<char>`:
    ASCII `toLowerCase`, `includes`, `startsWith`, `trim`, and the
    lexicographic order JavaScript's `<` uses on strings. */
module Text {

  // ---------------------------------------------------------------------
  // Case mapping (ASCII letters only)
  // ---------------------------------------------------------------------

  function LowerChar(c: char): char
  {
    if 'A' <= c <= 'Z' then (c as int + 32) as char else c
  }

  function UpperChar(c: char): char
  {
    if 'a' <= c <= 'z' then (c as int - 32) as char else c
  }

  function Lower(s: string): (r: string)
    ensures |r| == |s|
    ensures forall i :: 0 <= i < |s| ==> r[i] == LowerChar(s[i])
  {
    seq(|s|, i requires 0 <= i < |s| => LowerChar(s[i]))
  }

  function Upper(s: string): (r: string)
    ensures |r| == |s|
    ensures forall i :: 0 <= i < |s| ==> r[i] == UpperChar(s[i])
  {
    seq(|s|, i requires 0 <= i < |s| => UpperChar(s[i]))
  }

  /** Lower-casing leaves no ASCII capital behind, so doing it twice is
      the same as doing it once. */
  lemma LowerIdempotent(s: string)
    ensures forall i :: 0 <= i < |s| ==> !('A' <= Lower(s)[i] <= 'Z')
    ensures Lower(Lower(s)) == Lower(s)
  {
    assert forall i :: 0 <= i < |s| ==> LowerChar(LowerChar(s[i])) == LowerChar(s[i]);
  }

  /** An upper-cased string and the original are the same to `Lower`:
      they are case variants of each other. */
  lemma LowerOfUpper(s: string)
    ensures Lower(Upper(s)) == Lower(s)
  {
    assert forall i :: 0 <= i < |s| ==> LowerChar(UpperChar(s[i])) == LowerChar(s[i]);
  }

  // ---------------------------------------------------------------------
  // Prefixes and substrings
  // ---------------------------------------------------------------------

  /** `s.startsWith(p)` */
  predicate StartsWith(s: string, p: string)
  {
    |p| <= |s| && s[..|p|] == p
  }

  /** `t` occurs in `s` starting at index `i`. */
  predicate OccursAt(s: string, t: string, i: int)
  {
    0 <= i && i + |t| <= |s| && s[i..i + |t|] == t
  }

  /** `s.includes(t)`, computed by trying every start position in turn. */
  function Contains(s: string, t: string): (b: bool)
    ensures b <==> exists i :: OccursAt(s, t, i)
    decreases |s|
  {
    if StartsWith(s, t) then
      assert OccursAt(s, t, 0);
      true
    else if |s| == 0 then
      assert forall i :: OccursAt(s, t, i) ==> i == 0 && StartsWith(s, t);
      false
    else
      var rest := Contains(s[1..], t);
      ContainsStep(s, t);
      rest
  }

  /** Away from index 0, the occurrences in `s` are those in `s[1..]`
      shifted by one. */
  lemma ContainsStep(s: string, t: string)
    requires |s| > 0 && !StartsWith(s, t)
    ensures (exists i :: OccursAt(s, t, i)) <==> (exists i :: OccursAt(s[1..], t, i))
  {
    assert OccursAt(s, t, 0) ==> StartsWith(s, t);
    if exists i :: OccursAt(s, t, i) {
      var i :| OccursAt(s, t, i);
      assert s[1..][i - 1..i - 1 + |t|] == s[i..i + |t|];
      assert OccursAt(s[1..], t, i - 1);
    }
    if exists i :: OccursAt(s[1..], t, i) {
      var i :| OccursAt(s[1..], t, i);
      assert s[1..][i..i + |t|] == s[i + 1..i + 1 + |t|];
      assert OccursAt(s, t, i + 1);
    }
  }

  /** The empty string occurs in every string. */
  lemma ContainsEmpty(s: string)
    ensures Contains(s, "")
  {
    assert OccursAt(s, "", 0);
  }

  // ---------------------------------------------------------------------
  // Trimming
  // ---------------------------------------------------------------------

  /** The characters `String.prototype.trim` removes: ECMAScript
      WhiteSpace (tab, vertical tab, form feed, space, no-break space,
      byte-order mark and the other space separators) and
      LineTerminator (line feed, carriage return, line and paragraph
      separators). */
  predicate IsWhitespace(c: char)
  {
    var n := c as int;
    n == 0x09 || n == 0x0A || n == 0x0B || n == 0x0C || n == 0x0D || n == 0x20
    || n == 0xA0 || n == 0x1680 || (0x2000 <= n <= 0x200A)
    || n == 0x2028 || n == 0x2029 || n == 0x202F || n == 0x205F
    || n == 0x3000 || n == 0xFEFF
  }

  function TrimStart(s: string): string
  {
    if |s| > 0 && IsWhitespace(s[0]) then TrimStart(s[1..]) else s
  }

  function TrimEnd(s: string): string
  {
    if |s| > 0 && IsWhitespace(s[|s| - 1]) then TrimEnd(s[..|s| - 1]) else s
  }

  /** `s.trim()` */
  function Trim(s: string): string
  {
    TrimEnd(TrimStart(s))
  }

  lemma {:induction false} TrimStartEmptyIff(s: string)
    ensures TrimStart(s) == "" <==> forall i :: 0 <= i < |s| ==> IsWhitespace(s[i])
  {
    if |s| > 0 && IsWhitespace(s[0]) {
      TrimStartEmptyIff(s[1..]);
      assert forall i :: 1 <= i < |s| ==> s[i] == s[1..][i - 1];
    }
  }

  /** `TrimEnd` only removes whitespace, so it keeps any string that has
      a non-whitespace character. */
  lemma {:induction false} TrimEndKeepsNonBlank(s: string)
    ensures TrimEnd(s) == "" ==> forall i :: 0 <= i < |s| ==> IsWhitespace(s[i])
  {
    if |s| > 0 && IsWhitespace(s[|s| - 1]) {
      TrimEndKeepsNonBlank(s[..|s| - 1]);
    }
  }

  /** `s.trim() === ''` exactly when every character of `s` is whitespace
      (in particular for the empty string). */
  lemma TrimEmptyIff(s: string)
    ensures Trim(s) == "" <==> forall i :: 0 <= i < |s| ==> IsWhitespace(s[i])
  {
    TrimStartEmptyIff(s);
    TrimStartSuffix(s);
    var t := TrimStart(s);
    TrimEndKeepsNonBlank(t);
    assert |t| > 0 ==> !IsWhitespace(t[0]);
  }

  /** `TrimStart` returns a suffix of its input whose first character,
      if any, is not whitespace. */
  lemma {:induction false} TrimStartSuffix(s: string)
    ensures |TrimStart(s)| <= |s|
    ensures TrimStart(s) == s[|s| - |TrimStart(s)|..]
    ensures |TrimStart(s)| > 0 ==> !IsWhitespace(TrimStart(s)[0])
  {
    if |s| > 0 && IsWhitespace(s[0]) {
      TrimStartSuffix(s[1..]);
    }
  }

  // ---------------------------------------------------------------------
  // Lexicographic order
  // ---------------------------------------------------------------------

  /** JavaScript's `a < b` on strings: compare code points left to right;
      a proper prefix is smaller. (Dafny's `<` on sequences means proper
      prefix, which is a different relation.) */
  predicate LexLess(a: string, b: string)
  {
    if |a| == 0 then |b| > 0
    else if |b| == 0 then false
    else if a[0] != b[0] then a[0] < b[0]
    else LexLess(a[1..], b[1..])
  }

  lemma {:induction false} LexIrreflexive(a: string)
    ensures !LexLess(a, a)
  {
    if |a| > 0 {
      LexIrreflexive(a[1..]);
    }
  }

  lemma {:induction false} LexAsymmetric(a: string, b: string)
    ensures !(LexLess(a, b) && LexLess(b, a))
  {
    if |a| > 0 && |b| > 0 && a[0] == b[0] {
      LexAsymmetric(a[1..], b[1..]);
    }
  }

  lemma {:induction false} LexTotal(a: string, b: string)
    ensures a == b || LexLess(a, b) || LexLess(b, a)
  {
    if |a| > 0 && |b| > 0 && a[0] == b[0] {
      LexTotal(a[1..], b[1..]);
      if a[1..] == b[1..] {
        assert a == [a[0]] + a[1..] && b == [b[0]] + b[1..];
      }
    }
  }

  lemma {:induction false} LexTransitive(a: string, b: string, c: string)
    requires LexLess(a, b) && LexLess(b, c)
    ensures LexLess(a, c)
  {
    if |a| > 0 && |b| > 0 && |c| > 0 && a[0] == b[0] && b[0] == c[0] {
      LexTransitive(a[1..], b[1..], c[1..]);
    }
  }

  /** `a` is a proper prefix of `b`. */
  predicate ProperPrefix(a: string, b: string)
  {
    |a| < |b| && b[..|a|] == a
  }

  /** `a` and `b` agree before index `k` and `a` is smaller at `k`. */
  predicate FirstDifferenceAt(a: string, b: string, k: int)
  {
    0 <= k < |a| && k < |b| && a[..k] == b[..k] && a[k] < b[k]
  }

  /** The recursive definition agrees with the textbook one: either `a` is
      a proper prefix of `b`, or at the first differing position `a` has
      the smaller character. */
  lemma LexLessIff(a: string, b: string)
    ensures LexLess(a, b) <==> ProperPrefix(a, b) || exists k :: FirstDifferenceAt(a, b, k)
  {
    if LexLess(a, b) {
      LexLessSound(a, b);
    }
    if ProperPrefix(a, b) || exists k :: FirstDifferenceAt(a, b, k) {
      LexLessComplete(a, b);
    }
  }

  lemma {:induction false} LexLessSound(a: string, b: string)
    requires LexLess(a, b)
    ensures ProperPrefix(a, b) || exists k :: FirstDifferenceAt(a, b, k)
  {
    if |a| == 0 {
      assert ProperPrefix(a, b);
    } else if a[0] != b[0] {
      assert FirstDifferenceAt(a, b, 0);
    } else {
      LexLessSound(a[1..], b[1..]);
      if ProperPrefix(a[1..], b[1..]) {
        assert b[..|a|] == [b[0]] + b[1..][..|a| - 1];
        assert a == [a[0]] + a[1..];
        assert ProperPrefix(a, b);
      } else {
        var k :| FirstDifferenceAt(a[1..], b[1..], k);
        assert a[..k + 1] == [a[0]] + a[1..][..k];
        assert b[..k + 1] == [b[0]] + b[1..][..k];
        assert FirstDifferenceAt(a, b, k + 1);
      }
    }
  }

  lemma {:induction false} LexLessComplete(a: string, b: string)
    requires ProperPrefix(a, b) || exists k :: FirstDifferenceAt(a, b, k)
    ensures LexLess(a, b)
  {
    if |a| > 0 {
      if ProperPrefix(a, b) {
        assert a[0] == b[..|a|][0] == b[0];
        assert b[1..][..|a| - 1] == b[1..|a|] == a[1..];
        LexLessComplete(a[1..], b[1..]);
      } else {
        var k :| FirstDifferenceAt(a, b, k);
        if k > 0 {
          assert a[0] == a[..k][0] == b[..k][0] == b[0];
          assert a[1..][..k - 1] == a[1..k] == b[1..k] == b[1..][..k - 1];
          assert FirstDifferenceAt(a[1..], b[1..], k - 1);
          LexLessComplete(a[1..], b[1..]);
        }
      }
    }
  }
}
