/**
 * The registration form's phone helpers: formatting what the user types into hyphenated digit
 * groups, and the check run before an OTP is requested.
 */
module RegisterPhone {
  import opened Text

  /**
   * Hyphenated groups of the digit string `n`, keeping at most `cap` digits: no hyphen for up to
   * four digits, one after the fourth for up to seven, and one more after the seventh beyond that.
   */
  function Group(n: string, cap: nat): (r: string)
    requires cap >= 8
  {
    if |n| <= 4 then n
    else if |n| <= 7 then n[..4] + "-" + n[4..]
    else if |n| <= cap then n[..4] + "-" + n[4..7] + "-" + n[7..]
    else n[..4] + "-" + n[4..7] + "-" + n[7..cap]
  }

  /** `validateMyanmarPhone`: the digits of the input are "09" followed by exactly nine digits. */
  predicate Validate(s: string) {
    var n := DigitsOf(s);
    |n| == 11 && StartsWith(n, "09")
  }

  /** The number of digits a grouping keeps. */
  function Kept(n: string, cap: nat): nat {
    if |n| <= cap then |n| else cap
  }

  /** Removing the non-digits of a hyphen-joined pair removes the hyphen. */
  lemma HyphenJoin(a: string, b: string)
    ensures DigitsOf(a + "-" + b) == DigitsOf(a) + DigitsOf(b)
  {
    var h: string := "-";
    assert DigitsOf(h) == [];
    DigitsOfAppend(a + h, b);
    DigitsOfAppend(a, h);
  }

  /** Grouping inserts only hyphens: removing them gives back the kept digits. */
  lemma GroupDigits(n: string, cap: nat)
    requires cap >= 8 && AllDigits(n)
    ensures DigitsOf(Group(n, cap)) == n[..Kept(n, cap)]
  {
    if |n| <= 4 {
      DigitsOfDigits(n);
    } else if |n| <= 7 {
      HyphenJoin(n[..4], n[4..]);
      AllDigitsSlice(n, 0, 4);
      AllDigitsSlice(n, 4, |n|);
      DigitsOfDigits(n[..4]);
      DigitsOfDigits(n[4..]);
      assert n[..4] + n[4..] == n;
    } else {
      var k := n[..Kept(n, cap)];
      var tail := k[7..];
      assert Group(n, cap) == (n[..4] + "-" + n[4..7]) + "-" + tail;
      HyphenJoin(n[..4] + "-" + n[4..7], tail);
      HyphenJoin(n[..4], n[4..7]);
      AllDigitsSlice(n, 0, 4);
      AllDigitsSlice(n, 4, 7);
      AllDigitsSlice(n, 7, Kept(n, cap));
      assert tail == n[7..Kept(n, cap)];
      DigitsOfDigits(n[..4]);
      DigitsOfDigits(n[4..7]);
      DigitsOfDigits(tail);
      assert n[..4] + n[4..7] + tail == k;
    }
  }

  /** A grouping contains only digits and hyphens, and hyphens exactly at the group boundaries. */
  lemma GroupShape(n: string, cap: nat)
    requires cap >= 8 && AllDigits(n)
    ensures var r := Group(n, cap);
      && (forall i :: 0 <= i < |r| ==> IsDigit(r[i]) || r[i] == '-')
      && (|n| <= 4 ==> forall i :: 0 <= i < |r| ==> r[i] != '-')
      && (4 < |n| <= 7 ==> |r| == |n| + 1 && r[4] == '-' && forall i :: 0 <= i < |r| && i != 4 ==> r[i] != '-')
      && (7 < |n| ==> |r| == Kept(n, cap) + 2 && r[4] == '-' && r[8] == '-'
                      && forall i :: 0 <= i < |r| && i != 4 && i != 8 ==> r[i] != '-')
  {
    var r := Group(n, cap);
    if 4 < |n| <= 7 {
      forall i | 0 <= i < |r| ensures (IsDigit(r[i]) || r[i] == '-') && (i != 4 ==> r[i] != '-') {
        if i < 4 {
          assert r[i] == n[i];
        } else if i > 4 {
          assert r[i] == n[i - 1];
        }
      }
    } else if 7 < |n| {
      var k := n[..Kept(n, cap)];
      assert r == k[..4] + "-" + k[4..7] + "-" + k[7..];
      forall i | 0 <= i < |r| ensures (IsDigit(r[i]) || r[i] == '-') && (i != 4 && i != 8 ==> r[i] != '-') {
        if i < 4 {
          assert r[i] == n[i];
        } else if 4 < i < 8 {
          assert r[i] == n[i - 1];
        } else if i > 8 {
          assert r[i] == n[i - 2];
        }
      }
    }
  }

  /** Grouping an already grouped number changes nothing. */
  lemma GroupIdempotent(n: string, cap: nat)
    requires cap >= 8 && AllDigits(n)
    ensures Group(DigitsOf(Group(n, cap)), cap) == Group(n, cap)
  {
    GroupDigits(n, cap);
    var k := n[..Kept(n, cap)];
    if |n| > cap {
      assert k[..4] == n[..4] && k[4..7] == n[4..7] && k[7..] == n[7..cap];
      assert Group(k, cap) == k[..4] + "-" + k[4..7] + "-" + k[7..];
    } else {
      assert k == n;
    }
  }

  /** `formatMyanmarPhone` as written: at most ten digits are kept. */
  function FormatAsWritten(s: string): (r: string) {
    Group(DigitsOf(s), 10)
  }

  /** As written, the formatter keeps the first ten digits, and formatting twice is formatting once. */
  lemma FormatAsWrittenKeepsTen(s: string)
    ensures DigitsOf(FormatAsWritten(s)) == DigitsOf(s)[..Kept(DigitsOf(s), 10)]
    ensures FormatAsWritten(FormatAsWritten(s)) == FormatAsWritten(s)
  {
    GroupDigits(DigitsOf(s), 10);
    GroupIdempotent(DigitsOf(s), 10);
  }

  /**
   * As written, no formatted phone ever validates: the formatter keeps at most ten digits and
   * the check demands eleven. A number typed into the form therefore never gets an OTP.
   */
  lemma FormattedNeverValidates(s: string)
    ensures !Validate(FormatAsWritten(s))
  {
    GroupDigits(DigitsOf(s), 10);
  }

  /** `formatMyanmarPhone` keeping the eleven digits a Myanmar mobile number has. */
  function Format(s: string): (r: string) {
    Group(DigitsOf(s), 11)
  }

  /**
   * With eleven digits kept, formatting is idempotent, keeps the first eleven digits, and a
   * valid number stays valid once formatted.
   */
  lemma FormatKeepsValid(s: string)
    ensures DigitsOf(Format(s)) == DigitsOf(s)[..Kept(DigitsOf(s), 11)]
    ensures Format(Format(s)) == Format(s)
    ensures Validate(s) ==> Validate(Format(s))
  {
    var n := DigitsOf(s);
    GroupDigits(n, 11);
    GroupIdempotent(n, 11);
    if Validate(s) {
      assert n[..Kept(n, 11)] == n;
    }
  }
}
