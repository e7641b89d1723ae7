/** What trimming, lower-casing, the string order and decimal formatting come to, character by
    character. */
module TextLaws {
  import opened Text

  /** The 25 code points of Unicode's White_Space property. */
  const SPACES := {
    '\t', '\n', '\U{000B}', '\U{000C}', '\r', ' ', '\U{0085}', '\U{00A0}', '\U{1680}', '\U{2000}', '\U{2001}',
    '\U{2002}', '\U{2003}', '\U{2004}', '\U{2005}', '\U{2006}', '\U{2007}', '\U{2008}', '\U{2009}', '\U{200A}',
    '\U{2028}', '\U{2029}', '\U{202F}', '\U{205F}', '\U{3000}'}

  lemma SpacesAre(c: char)
    ensures IsSpace(c) <==> c in SPACES
  {
  }

  ghost predicate AllSpace(s: string) {
    forall k | 0 <= k < |s| :: IsSpace(s[k])
  }

  /** The text without the spaces at its ends. */
  ghost predicate Trims(s: string, i: nat, j: nat, t: string) {
    && i <= j <= |s| && t == s[i..j] && AllSpace(s[..i]) && AllSpace(s[j..])
    && (i < j ==> !IsSpace(s[i]) && !IsSpace(s[j - 1]))
  }

  lemma {:induction false} TrimLeftIs(s: string) returns (i: nat)
    ensures i <= |s| && TrimLeft(s) == s[i..] && AllSpace(s[..i]) && (i < |s| ==> !IsSpace(s[i]))
  {
    i := 0;
    if s != [] && IsSpace(s[0]) {
      var k := TrimLeftIs(s[1..]);
      i := k + 1;
      assert s[1..][..k] == s[1..i] && s[..i] == [s[0]] + s[1..i];
      assert s[1..][k..] == s[i..];
    }
  }

  lemma {:induction false} TrimRightIs(s: string) returns (j: nat)
    ensures j <= |s| && TrimRight(s) == s[..j] && AllSpace(s[j..]) && (j > 0 ==> !IsSpace(s[j - 1]))
  {
    j := |s|;
    if s != [] && IsSpace(s[|s| - 1]) {
      j := TrimRightIs(s[..|s| - 1]);
      assert s[j..] == s[..|s| - 1][j..] + [s[|s| - 1]];
      assert s[..|s| - 1][..j] == s[..j];
    }
  }

  /** Trimming takes away the spaces at both ends and nothing else. */
  lemma TrimIs(s: string)
    ensures exists i: nat, j: nat :: Trims(s, i, j, TrimSpace(s))
  {
    var i := TrimLeftIs(s);
    var j := TrimRightIs(s[i..]);
    assert s[i..][..j] == s[i..i + j] && s[i..][j..] == s[i + j..];
    assert Trims(s, i, i + j, TrimSpace(s));
  }

  /** A text is blank exactly if all of it is space. */
  lemma BlankIff(s: string)
    ensures Blank(s) <==> forall k | 0 <= k < |s| :: s[k] in SPACES
  {
    TrimIs(s);
    var i: nat, j: nat :| Trims(s, i, j, TrimSpace(s));
    forall k | 0 <= k < |s|
      ensures k < i ==> IsSpace(s[k])
      ensures k >= j ==> IsSpace(s[k])
      ensures IsSpace(s[k]) <==> s[k] in SPACES
    {
      SpacesAre(s[k]);
      if k < i {
        assert IsSpace(s[..i][k]);
      }
      if k >= j {
        assert IsSpace(s[j..][k - j]);
      }
    }
  }

  /** Lower-casing moves the 26 capital letters and nothing else. */
  lemma ToLowerIs(s: string, i: nat)
    requires i < |s|
    ensures |ToLower(s)| == |s|
    ensures ToLower(s)[i] as int == s[i] as int + if 65 <= s[i] as int <= 90 then 32 else 0
  {
  }

  /** The strings first differ at k, where a has the smaller code point. */
  ghost predicate SmallerAt(a: string, b: string, k: nat) {
    k < |a| && k < |b| && a[..k] == b[..k] && a[k] as int < b[k] as int
  }

  lemma SmallerBelow(a: string, b: string, k: nat)
    requires a != [] && b != [] && a[0] == b[0]
    ensures SmallerAt(a, b, k + 1) <==> SmallerAt(a[1..], b[1..], k)
    ensures !SmallerAt(a, b, 0)
  {
    if k < |a[1..]| && k < |b[1..]| {
      assert a[..k + 1] == [a[0]] + a[1..][..k] && b[..k + 1] == [b[0]] + b[1..][..k];
      assert a[1..][..k] == a[..k + 1][1..] && b[1..][..k] == b[..k + 1][1..];
    }
  }

  lemma SmallerAtHead(a: string, b: string, k: nat)
    requires a != [] && b != [] && a[0] != b[0]
    ensures SmallerAt(a, b, k) <==> k == 0 && a[0] as int < b[0] as int
  {
    if 0 < k <= |a| && k <= |b| {
      assert a[..k][0] == a[0] && b[..k][0] == b[0];
    }
  }

  /** One string comes before another exactly if it is a prefix of it, or has the smaller code point
      where they first differ. */
  lemma {:induction false} StrLeIff(a: string, b: string)
    ensures StrLe(a, b) <==> a <= b || exists k: nat :: SmallerAt(a, b, k)
  {
    if a != [] && b != [] && a[0] == b[0] {
      StrLeIff(a[1..], b[1..]);
      assert a == [a[0]] + a[1..] && b == [b[0]] + b[1..];
      if k: nat :| SmallerAt(a[1..], b[1..], k) {
        SmallerBelow(a, b, k);
      }
      if k: nat :| SmallerAt(a, b, k) {
        SmallerBelow(a, b, if k > 0 then k - 1 else 0);
      }
    } else if a != [] && b != [] {
      SmallerAtHead(a, b, 0);
      if k: nat :| SmallerAt(a, b, k) {
        SmallerAtHead(a, b, k);
      }
    }
  }

  /** A number is written in digits that denote it, without leading zeros. */
  lemma {:induction false} DecIs(n: nat)
    ensures Value(Dec(n)) == n && (Dec(n)[0] == '0' ==> n == 0)
    ensures forall i | 0 <= i < |Dec(n)| :: '0' <= Dec(n)[i] <= '9'
  {
    DecValue(n);
    if n >= 10 {
      DecIs(n / 10);
    }
  }

  /** Padding puts zeros in front up to the width. */
  lemma PaddedIs(n: nat, width: nat)
    ensures
      var z := |Padded(n, width)| - |Dec(n)|;
      && z == (if |Dec(n)| < width then width - |Dec(n)| else 0)
      && Padded(n, width)[z..] == Dec(n) && forall i | 0 <= i < z :: Padded(n, width)[i] == '0'
  {
  }
}
