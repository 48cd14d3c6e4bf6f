/** The public NDY ID: how it is printed, how it is parsed back, and the genesis core numbers. */
module NdyId {
  import opened Wrappers

  datatype Role = User | Founder | SuperAdmin | Developer | Finance | Support | Content | Partners | Auditor

  datatype Parsed = Parsed(idType: Option<string>, coreId: string)

  // ---------------------------------------------------------------- type segment

  predicate IsType(t: string) {
    t in {"CEO", "FND", "EXE", "PRT", "INV", "DEV", "BIZ", "MBR"}
  }

  function TypeForRole(role: Role): string {
    if role == Founder then "FND" else "MBR"
  }

  /** The stored override when there is one; null and the empty string both mean "none". */
  function TypeForUser(override: string, role: Role): string {
    if override != "" then override else TypeForRole(role)
  }

  lemma TypesHaveThreeLetters(t: string)
    requires IsType(t)
    ensures |t| == 3
  {
  }

  // ---------------------------------------------------------------- printing and parsing

  predicate IsCoreChar(c: char) {
    'A' <= c <= 'Z' || '0' <= c <= '9'
  }

  predicate IsCore(s: string) {
    |s| == 6 && forall i | 0 <= i < |s| :: IsCoreChar(s[i])
  }

  function Format(coreId: string, idType: string): string {
    "NDY-" + idType + "-" + coreId
  }

  /** The two anchored patterns: NDY-TYPE-XXXXXX, then the older NDY-XXXXXX. */
  function Parse(id: string): Option<Parsed> {
    if |id| == 14 && id[..4] == "NDY-" && IsType(id[4..7]) && id[7] == '-' && IsCore(id[8..]) then
      Some(Parsed(Some(id[4..7]), id[8..]))
    else if |id| == 10 && id[..4] == "NDY-" && IsCore(id[4..]) then
      Some(Parsed(None, id[4..]))
    else None
  }

  lemma FormatParts(coreId: string, idType: string)
    requires |idType| == 3
    ensures var id := Format(coreId, idType);
            |id| == 8 + |coreId| && id[..4] == "NDY-" && id[4..7] == idType && id[7] == '-' && id[8..] == coreId
  {
    var id := Format(coreId, idType);
    assert id == "NDY-" + (idType + ("-" + coreId));
    assert id[4..] == idType + ("-" + coreId);
    assert id[7..] == "-" + coreId;
  }

  /** Parsing inverts printing exactly on the legal type segments and six-character cores. */
  lemma ParseInvertsFormat(coreId: string, idType: string)
    ensures Parse(Format(coreId, idType)) == Some(Parsed(Some(idType), coreId)) <==> IsType(idType) && IsCore(coreId)
  {
    if IsType(idType) && IsCore(coreId) {
      TypesHaveThreeLetters(idType);
      FormatParts(coreId, idType);
    }
  }

  /** Everything that parses was printed: with its type, or in the older form without one. */
  lemma ParsedWasPrinted(id: string)
    requires Parse(id).Some?
    ensures var p := Parse(id).value;
            && IsCore(p.coreId)
            && match p.idType
               case Some(t) => IsType(t) && id == Format(p.coreId, t)
               case None => id == "NDY-" + p.coreId
  {
    assert id == id[..4] + id[4..];
    if |id| == 14 {
      assert id[4..] == id[4..7] + [id[7]] + id[8..];
    }
  }

  lemma FormatInjective(c1: string, t1: string, c2: string, t2: string)
    requires |t1| == |t2| == 3 && Format(c1, t1) == Format(c2, t2)
    ensures c1 == c2 && t1 == t2
  {
    FormatParts(c1, t1);
    FormatParts(c2, t2);
  }

  // ---------------------------------------------------------------- generated and genesis cores

  /** The signup alphabet leaves out 0, 1, I, L and O. */
  predicate IsSignupChar(c: char) {
    IsCoreChar(c) && c !in {'0', '1', 'I', 'L', 'O'}
  }

  /** What six draws from the signup alphabet can give. */
  predicate IsGenerated(s: string) {
    |s| == 6 && forall i | 0 <= i < |s| :: IsSignupChar(s[i])
  }

  const SIGNUP_ALPHABET: string := "23456789ABCDEFGHJKMNPQRSTUVWXYZ"

  function SignupCharAt(i: nat): (c: char)
    requires i < 31
    ensures IsSignupChar(c)
  {
    if i < 8 then '2' + i as char
    else if i < 16 then 'A' + (i - 8) as char
    else if i < 18 then 'J' + (i - 16) as char
    else if i < 20 then 'M' + (i - 18) as char
    else 'P' + (i - 20) as char
  }

  /** The character class above is the signup alphabet: nothing more and nothing less. */
  lemma SignupAlphabet()
    ensures |SIGNUP_ALPHABET| == 31
    ensures forall i | 0 <= i < 31 :: SIGNUP_ALPHABET[i] == SignupCharAt(i)
    ensures forall c | IsSignupChar(c) :: exists i | 0 <= i < 31 :: SignupCharAt(i) == c
  {
    forall c | IsSignupChar(c) ensures exists i | 0 <= i < 31 :: SignupCharAt(i) == c {
      var n := c as int;
      var i := if c <= '9' then n - 50 else if c <= 'H' then n - 57 else if c <= 'K' then n - 58
               else if c <= 'N' then n - 59 else n - 60;
      assert SignupCharAt(i) == c;
    }
  }

  function Digit(d: nat): (c: char)
    requires d < 10
    ensures '0' <= c <= '9'
  {
    '0' + d as char
  }

  function Decimal(n: nat): (s: string)
    ensures s != ""
  {
    if n < 10 then [Digit(n)] else Decimal(n / 10) + [Digit(n % 10)]
  }

  function Pow10(k: nat): nat {
    if k == 0 then 1 else 10 * Pow10(k - 1)
  }

  lemma {:induction false} DecimalLength(n: nat, k: nat)
    requires k > 0
    ensures |Decimal(n)| <= k <==> n < Pow10(k)
    decreases n
  {
    if n < 10 {
      PowAtLeastTen(k);
    } else if k > 1 {
      DecimalLength(n / 10, k - 1);
    }
  }

  lemma {:induction false} PowAtLeastTen(k: nat)
    requires k > 0
    ensures Pow10(k) >= 10
  {
    if k > 1 {
      PowAtLeastTen(k - 1);
    }
  }

  lemma {:induction false} DecimalDigits(n: nat, i: nat)
    requires i < |Decimal(n)|
    ensures '0' <= Decimal(n)[i] <= '9'
    ensures n > 0 ==> Decimal(n)[0] != '0'
  {
    if n >= 10 {
      DecimalDigits(n / 10, 0);
      if i < |Decimal(n / 10)| {
        DecimalDigits(n / 10, i);
      }
    }
  }

  lemma {:induction false} DecimalInjective(n: nat, m: nat)
    requires Decimal(n) == Decimal(m)
    ensures n == m
  {
    var s := Decimal(n);
    assert s[|s| - 1] == Digit(n % 10) == Digit(m % 10);
    if n >= 10 && m >= 10 {
      assert Decimal(n / 10) == s[..|s| - 1] == Decimal(m / 10);
      DecimalInjective(n / 10, m / 10);
    } else {
      assert n >= 10 ==> |Decimal(n)| >= 2;
      assert m >= 10 ==> |Decimal(m)| >= 2;
    }
  }

  function {:induction false} PadStart(s: string): (p: string)
    ensures |p| == if |s| < 6 then 6 else |s|
    decreases 6 - |s|
  {
    if |s| >= 6 then s else PadStart("0" + s)
  }

  /** Positive sequence numbers only; the code throws on anything else. */
  function GenesisCore(sequence: int): Option<string> {
    if sequence < 1 then None else Some(PadStart(Decimal(sequence)))
  }

  lemma {:induction false} PadStartShape(s: string)
    ensures PadStart(s)[|PadStart(s)| - |s|..] == s
    ensures forall i | 0 <= i < |PadStart(s)| - |s| :: PadStart(s)[i] == '0'
    ensures s != "" ==> PadStart(s)[|PadStart(s)| - |s|] == s[0]
    decreases 6 - |s|
  {
    if |s| < 6 {
      var t := "0" + s;
      PadStartShape(t);
      var p := PadStart(t);
      assert p[|p| - |s|..] == p[|p| - |t|..][1..];
      assert p[|p| - |t|] == p[|p| - |t|..][0] == '0';
    }
  }

  lemma SixDigits(n: nat)
    ensures |Decimal(n)| <= 5 <==> n <= 99999
    ensures |Decimal(n)| <= 6 <==> n <= 999999
  {
    DecimalLength(n, 5);
    DecimalLength(n, 6);
    assert Pow10(5) == 100000;
  }

  /** A genesis core is a legal core exactly up to 999999. */
  lemma GenesisIsCore(n: int)
    requires n >= 1
    ensures IsCore(GenesisCore(n).value) <==> n <= 999999
  {
    SixDigits(n);
    var d := Decimal(n);
    PadStartShape(d);
    var p := PadStart(d);
    if n <= 999999 {
      forall i | 0 <= i < 6 ensures IsCoreChar(p[i]) {
        if i >= 6 - |d| {
          DecimalDigits(n, i - (6 - |d|));
          assert p[i] == p[6 - |d|..][i - (6 - |d|)];
        }
      }
    }
  }

  predicate NoZeroOrOne(s: string) {
    forall i | 0 <= i < |s| :: s[i] != '0' && s[i] != '1'
  }

  /**
   * When a genesis core could also have been drawn at signup: never for 1 .. 99999, and above
   * that only for six-digit numbers without a 0 or a 1.
   */
  lemma GenesisCollides(n: int)
    requires n >= 1
    ensures IsGenerated(GenesisCore(n).value) <==> 100000 <= n <= 999999 && NoZeroOrOne(Decimal(n))
  {
    SixDigits(n);
    var d := Decimal(n);
    PadStartShape(d);
    var p := PadStart(d);
    if n <= 99999 {
      assert p[0] == '0' && !IsSignupChar(p[0]);
    } else if n <= 999999 {
      assert p[0..] == p;
      SixDigitsGenerated(n);
    } else {
      assert |p| > 6;
    }
  }

  lemma SixDigitsGenerated(n: nat)
    requires |Decimal(n)| == 6
    ensures IsGenerated(Decimal(n)) <==> NoZeroOrOne(Decimal(n))
  {
    var d := Decimal(n);
    forall i | 0 <= i < 6 ensures IsSignupChar(d[i]) <==> d[i] != '0' && d[i] != '1' {
      DecimalDigits(n, i);
    }
  }

  /** Distinct sequence numbers give distinct cores. */
  lemma GenesisInjective(n: int, m: int)
    requires n >= 1 && m >= 1 && GenesisCore(n) == GenesisCore(m)
    ensures n == m
  {
    var a, b := Decimal(n), Decimal(m);
    PadStartShape(a);
    PadStartShape(b);
    DecimalDigits(n, 0);
    DecimalDigits(m, 0);
    if |a| < |b| {
      assert false;
    } else if |b| < |a| {
      assert false;
    }
    DecimalInjective(n, m);
  }

  // ---------------------------------------------------------------- text and numbers

  /** An ID parses, with these parts, exactly when it is written with one of the eight types or in the older form, and six capitals or digits. */
  lemma ParseExactly(id: string, idType: string, coreId: string)
    ensures Parse(id) == Some(Parsed(Some(idType), coreId))
       <==> id == "NDY-" + idType + "-" + coreId && idType in {"CEO", "FND", "EXE", "PRT", "INV", "DEV", "BIZ", "MBR"}
            && |coreId| == 6 && forall c | c in coreId :: 'A' <= c <= 'Z' || '0' <= c <= '9'
    ensures Parse(id) == Some(Parsed(None, coreId))
       <==> id == "NDY-" + coreId && |coreId| == 6 && forall c | c in coreId :: 'A' <= c <= 'Z' || '0' <= c <= '9'
  {
    CoreExactly(coreId);
    if IsType(idType) {
      ParseInvertsFormat(idType := idType, coreId := coreId);
    }
    if Parse(id).Some? {
      ParsedWasPrinted(id);
    }
    if id == "NDY-" + coreId && IsCore(coreId) {
      assert id[..4] == "NDY-" && id[4..] == coreId;
    }
  }

  lemma CoreExactly(s: string)
    ensures IsCore(s) <==> |s| == 6 && forall c | c in s :: 'A' <= c <= 'Z' || '0' <= c <= '9'
  {
    if IsCore(s) {
      forall c | c in s ensures 'A' <= c <= 'Z' || '0' <= c <= '9' {
        var i :| 0 <= i < |s| && s[i] == c;
      }
    }
    if |s| == 6 && forall c | c in s :: 'A' <= c <= 'Z' || '0' <= c <= '9' {
      forall i | 0 <= i < |s| ensures IsCoreChar(s[i]) {
        assert s[i] in s;
      }
    }
  }

  /** The type shown is the override, or FND for Founders and MBR for everybody else. */
  lemma TypeExactly(override: string, role: Role)
    ensures override != "" ==> TypeForUser(override, role) == override
    ensures TypeForUser("", role) == "FND" <==> role == Founder
    ensures TypeForUser("", role) == "MBR" <==> role != Founder
  {
    assert "FND"[0] != "MBR"[0];
  }

  /** The printed ID, letter by letter. */
  lemma LettersShown(coreId: string, override: string, role: Role)
    ensures Format(coreId, TypeForUser(override, role))
         == if override != "" then "NDY-" + override + "-" + coreId
            else if role == Founder then "NDY-FND-" + coreId else "NDY-MBR-" + coreId
  {
    assert "NDY-" + "FND" + "-" == "NDY-FND-";
    assert "NDY-" + "MBR" + "-" == "NDY-MBR-";
  }

  /** A decimal numeral, read as a number. */
  function ReadDecimal(s: string): int {
    if s == "" then 0 else 10 * ReadDecimal(s[..|s| - 1]) + (s[|s| - 1] as int - '0' as int)
  }

  lemma ReadOfAppend(s: string, c: char)
    ensures ReadDecimal(s + [c]) == 10 * ReadDecimal(s) + (c as int - '0' as int)
  {
    assert (s + [c])[..|s|] == s;
  }

  lemma {:induction false} DecimalReadsBack(n: nat)
    ensures ReadDecimal(Decimal(n)) == n
  {
    if n < 10 {
      assert Decimal(n) == "" + [Digit(n)];
      ReadOfAppend("", Digit(n));
    } else {
      DecimalReadsBack(n / 10);
      ReadOfAppend(Decimal(n / 10), Digit(n % 10));
    }
  }

  lemma {:induction false} LeadingZero(s: string)
    ensures ReadDecimal("0" + s) == ReadDecimal(s)
  {
    if s == "" {
      assert "0" + s == "" + ['0'];
      ReadOfAppend("", '0');
    } else {
      var front, last := s[..|s| - 1], s[|s| - 1];
      LeadingZero(front);
      assert "0" + s == ("0" + front) + [last];
      ReadOfAppend("0" + front, last);
    }
  }

  lemma {:induction false} PaddingReadsBack(s: string)
    ensures ReadDecimal(PadStart(s)) == ReadDecimal(s)
    decreases 6 - |s|
  {
    if |s| < 6 {
      LeadingZero(s);
      PaddingReadsBack("0" + s);
    }
  }

  /** A genesis core is its sequence number, written with at least six digits; there is none for numbers below one. */
  lemma GenesisReadsBack(n: int)
    ensures GenesisCore(n) == None <==> n < 1
    ensures n >= 1 ==> ReadDecimal(GenesisCore(n).value) == n && |GenesisCore(n).value| >= 6
    ensures 1 <= n <= 999999 ==> |GenesisCore(n).value| == 6
  {
    if n >= 1 {
      DecimalReadsBack(n);
      PaddingReadsBack(Decimal(n));
      SixDigits(n);
    }
  }
}
