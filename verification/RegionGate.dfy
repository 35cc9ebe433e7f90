/** Which phone and region pairs may be dialled. Regions are already stripped and upper-cased. */
module RegionGate {
  import opened Common

  const SUPPORTED_REGIONS: set<string> := {
    "AE", "AU", "BD", "BR", "BW", "CA", "CM", "DE", "EG", "ES", "FI", "FR", "GB", "GH",
    "HN", "ID", "IE", "IL", "IN", "JP", "KE", "LK", "MX", "MY", "MZ", "NA", "NG", "NL",
    "OM", "PH", "PK", "PL", "SA", "SG", "TH", "TN", "TR", "TW", "UA", "US", "VN", "ZA"}

  /** Calling-code prefixes, longest first. */
  const CALLING_PREFIXES: seq<(string, string)> := [
    ("216", "TN"), ("233", "GH"), ("234", "NG"), ("237", "CM"), ("254", "KE"), ("258", "MZ"), ("264", "NA"),
    ("267", "BW"), ("353", "IE"), ("358", "FI"), ("380", "UA"), ("504", "HN"), ("880", "BD"), ("886", "TW"),
    ("966", "SA"), ("967", "YE"), ("968", "OM"), ("971", "AE"), ("972", "IL"), ("20", "EG"), ("27", "ZA"),
    ("31", "NL"), ("33", "FR"), ("34", "ES"), ("44", "GB"), ("48", "PL"), ("49", "DE"), ("52", "MX"),
    ("55", "BR"), ("60", "MY"), ("61", "AU"), ("62", "ID"), ("63", "PH"), ("65", "SG"), ("66", "TH"),
    ("81", "JP"), ("84", "VN"), ("90", "TR"), ("91", "IN"), ("92", "PK"), ("94", "LK")]

  const NANP: string := "NANP"

  predicate IsDigit(c: char) {
    '0' <= c <= '9'
  }

  predicate IsValidE164(phone: string) {
    && 9 <= |phone| <= 16 && phone[0] == '+' && '1' <= phone[1] <= '9'
    && forall i :: 2 <= i < |phone| ==> IsDigit(phone[i])
  }

  /** The region of the first prefix in the table that fits. */
  function FirstPrefix(table: seq<(string, string)>, digits: string): Option<string> {
    if table == [] then None
    else if table[0].0 <= digits then Some(table[0].1)
    else FirstPrefix(table[1..], digits)
  }

  function CallingRegion(phone: string): Option<string> {
    if phone == "" || phone[0] != '+' then None
    else if "1" <= phone[1..] then Some(NANP)
    else FirstPrefix(CALLING_PREFIXES, phone[1..])
  }

  /** True when the pair is eligible; the gate's other answer is always "unsupportedRegion". */
  predicate RegionAllowed(phone: string, region: string, allowlistRegion: string) {
    var mapped := CallingRegion(phone);
    && region != "YE" && mapped != Some("YE") && mapped.Some?
    && (if mapped.value == NANP then region == allowlistRegion else region == mapped.value)
    && region in SUPPORTED_REGIONS
  }

  lemma {:induction false} FirstFit(table: seq<(string, string)>, digits: string, k: nat)
    requires k < |table| && table[k].0 <= digits
    requires forall i :: 0 <= i < k ==> !(table[i].0 <= digits)
    ensures FirstPrefix(table, digits) == Some(table[k].1)
  {
    if k > 0 {
      FirstFit(table[1..], digits, k - 1);
    }
  }

  lemma {:induction false} AnswerIsInTable(table: seq<(string, string)>, digits: string)
    ensures FirstPrefix(table, digits).Some? ==>
              exists i :: 0 <= i < |table| && table[i].0 <= digits && FirstPrefix(table, digits) == Some(table[i].1)
  {
    if table != [] {
      if table[0].0 <= digits {
        assert FirstPrefix(table, digits) == Some(table[0].1);
      } else {
        AnswerIsInTable(table[1..], digits);
        if FirstPrefix(table, digits).Some? {
          var i :| 0 <= i < |table[1..]| && table[1..][i].0 <= digits
              && FirstPrefix(table[1..], digits) == Some(table[1..][i].1);
          assert table[i + 1] == table[1..][i];
        }
      }
    }
  }

  /** Yemen's entry, and that nothing before it in the table can fit the same number. */
  lemma YemenEntry()
    ensures |CALLING_PREFIXES| > 15 && CALLING_PREFIXES[15] == ("967", "YE")
    ensures forall i :: 0 <= i < 15 ==> |CALLING_PREFIXES[i].0| == 3 && CALLING_PREFIXES[i].0 != "967"
    ensures forall i :: 0 <= i < |CALLING_PREFIXES| && i != 15 ==> CALLING_PREFIXES[i].1 != "YE"
  {
  }

  lemma YemenInTable(table: seq<(string, string)>, digits: string)
    requires |table| > 15 && table[15] == ("967", "YE")
    requires forall i :: 0 <= i < 15 ==> |table[i].0| == 3 && table[i].0 != "967"
    requires forall i :: 0 <= i < |table| && i != 15 ==> table[i].1 != "YE"
    ensures FirstPrefix(table, digits) == Some("YE") <==> "967" <= digits
  {
    if "967" <= digits {
      assert digits[..3] == "967";
      assert forall p: string :: |p| == 3 && p <= digits ==> p == digits[..3];
      FirstFit(table, digits, 15);
    } else {
      AnswerIsInTable(table, digits);
    }
  }

  lemma YemenIff(phone: string)
    ensures CallingRegion(phone) == Some("YE") <==> "+967" <= phone
  {
    YemenEntry();
    hide FirstPrefix;
    if phone != "" {
      YemenInTable(CALLING_PREFIXES, phone[1..]);
      assert "+967" <= phone <==> phone[0] == '+' && "967" <= phone[1..] by {
        assert "+967" <= phone ==> phone[1..][..3] == phone[1..4] && phone[1..4] == "967";
        assert phone[0] == '+' && "967" <= phone[1..] ==> phone[..4] == ['+'] + phone[1..][..3];
      }
      assert "1" <= phone[1..] ==> phone[1..][0] == '1';
      assert "967" <= phone[1..] ==> phone[1..][0] == '9';
      assert NANP[0] != "YE"[0];
    }
  }

  /** Whatever is configured, nothing eligible is a Yemeni number or carries Yemen's region. */
  lemma NeverYemen(phone: string, region: string, allowlistRegion: string)
    requires RegionAllowed(phone, region, allowlistRegion)
    ensures !("+967" <= phone) && region != "YE" && region in SUPPORTED_REGIONS
  {
    YemenIff(phone);
  }

  // ---- which numbers carry which region ------------------------------------

  /** The region that has this calling code to itself. */
  function RegionOfCode(code: nat): Option<string> {
    if code == 20 then Some("EG") else if code == 27 then Some("ZA") else if code == 31 then Some("NL")
    else if code == 33 then Some("FR") else if code == 34 then Some("ES") else if code == 44 then Some("GB")
    else if code == 48 then Some("PL") else if code == 49 then Some("DE") else if code == 52 then Some("MX")
    else if code == 55 then Some("BR") else if code == 60 then Some("MY") else if code == 61 then Some("AU")
    else if code == 62 then Some("ID") else if code == 63 then Some("PH") else if code == 65 then Some("SG")
    else if code == 66 then Some("TH") else if code == 81 then Some("JP") else if code == 84 then Some("VN")
    else if code == 90 then Some("TR") else if code == 91 then Some("IN") else if code == 92 then Some("PK")
    else if code == 94 then Some("LK") else if code == 216 then Some("TN") else if code == 233 then Some("GH")
    else if code == 234 then Some("NG") else if code == 237 then Some("CM") else if code == 254 then Some("KE")
    else if code == 258 then Some("MZ") else if code == 264 then Some("NA") else if code == 267 then Some("BW")
    else if code == 353 then Some("IE") else if code == 358 then Some("FI") else if code == 380 then Some("UA")
    else if code == 504 then Some("HN") else if code == 880 then Some("BD") else if code == 886 then Some("TW")
    else if code == 966 then Some("SA") else if code == 967 then Some("YE") else if code == 968 then Some("OM")
    else if code == 971 then Some("AE") else if code == 972 then Some("IL") else None
  }

  /** A calling code as it is dialled: two or three digits. */
  function Dialled(code: nat): string {
    var digit := (n: nat) requires n < 10 => (n + '0' as int) as char;
    if code < 100 then [digit(code / 10), digit(code % 10)]
    else if code < 1000 then [digit(code / 100), digit(code / 10 % 10), digit(code % 10)] else ""
  }

  /** The codes in the order in which they are tried. */
  const CODES: seq<nat> := [
    216, 233, 234, 237, 254, 258, 264, 267, 353, 358, 380, 504, 880, 886, 966, 967, 968, 971, 972,
    20, 27, 31, 33, 34, 44, 48, 49, 52, 55, 60, 61, 62, 63, 65, 66, 81, 84, 90, 91, 92, 94]

  predicate Entry(k: nat) {
    && k < |CALLING_PREFIXES| == |CODES|
    && CALLING_PREFIXES[k].0 == Dialled(CODES[k]) && RegionOfCode(CODES[k]) == Some(CALLING_PREFIXES[k].1)
  }

  lemma EntriesToTen()
    ensures forall k: nat :: k < 10 ==> Entry(k)
  {
  }

  lemma EntriesToTwenty()
    ensures forall k: nat :: 10 <= k < 20 ==> Entry(k)
  {
  }

  lemma EntriesToThirty()
    ensures forall k: nat :: 20 <= k < 30 ==> Entry(k)
  {
  }

  lemma EntriesToTheEnd()
    ensures forall k: nat :: 30 <= k < 41 ==> Entry(k)
  {
  }

  lemma Entries(k: nat)
    requires k < |CALLING_PREFIXES|
    ensures Entry(k)
  {
    assert |CALLING_PREFIXES| == 41;
    EntriesToTen();
    EntriesToTwenty();
    EntriesToThirty();
    EntriesToTheEnd();
    hide Entry;
  }

  lemma CodeIsListed(code: nat) returns (k: nat)
    requires RegionOfCode(code).Some?
    ensures k < |CODES| && CODES[k] == code
  {
    assert code in CODES;
    k :| k < |CODES| && CODES[k] == code;
  }

  lemma CodesAreApart(i: nat, k: nat)
    requires i < k < |CODES|
    ensures CODES[i] != CODES[k] && (i < 19 <= k ==> CODES[i] / 10 != CODES[k])
    ensures (k < 19 ==> 100 <= CODES[k] < 1000) && (i < 19 ==> 100 <= CODES[i] < 1000)
    ensures (k >= 19 ==> 10 <= CODES[k] < 100) && (i >= 19 ==> 10 <= CODES[i] < 100)
  {
  }

  lemma DialledDigits(code: nat)
    requires 10 <= code < 1000
    ensures var d := Dialled(code);
            if code < 100 then |d| == 2 && code == (d[0] as int - 48) * 10 + (d[1] as int - 48)
            else |d| == 3 && code == (d[0] as int - 48) * 100 + (d[1] as int - 48) * 10 + (d[2] as int - 48)
                 && code / 10 == (d[0] as int - 48) * 10 + (d[1] as int - 48)
  {
  }

  lemma DialledApart(digits: string, a: nat, b: nat)
    requires 10 <= a < 1000 && 10 <= b < 1000 && Dialled(a) <= digits && Dialled(b) <= digits
    ensures (a >= 100 <==> b >= 100) ==> a == b
    ensures a >= 100 > b ==> a / 10 == b
  {
    DialledDigits(a);
    DialledDigits(b);
    hide Dialled;
    assert Dialled(a)[0] == digits[0] == Dialled(b)[0] && Dialled(a)[1] == digits[1] == Dialled(b)[1];
    if a >= 100 && b >= 100 {
      assert Dialled(a)[2] == digits[2] == Dialled(b)[2];
    }
  }

  /** No number begins with two of the codes. */
  lemma OneCodeFits(digits: string, i: nat, k: nat)
    requires i < k < |CODES| && Dialled(CODES[k]) <= digits
    ensures !(Dialled(CODES[i]) <= digits)
  {
    CodesAreApart(i, k);
    hide Dialled;
    if Dialled(CODES[i]) <= digits {
      DialledApart(digits, CODES[i], CODES[k]);
    }
  }

  /** The numbers with this region are those that begin with its code, whatever the order of the table. */
  lemma FirstPrefixIff(digits: string, region: string)
    ensures FirstPrefix(CALLING_PREFIXES, digits) == Some(region)
       <==> exists code :: RegionOfCode(code) == Some(region) && Dialled(code) <= digits
  {
    hide RegionOfCode, Dialled;
    if FirstPrefix(CALLING_PREFIXES, digits) == Some(region) {
      AnswerIsInTable(CALLING_PREFIXES, digits);
      var i :| 0 <= i < |CALLING_PREFIXES| && CALLING_PREFIXES[i].0 <= digits && region == CALLING_PREFIXES[i].1;
      Entries(i);
    }
    if code: nat :| RegionOfCode(code) == Some(region) && Dialled(code) <= digits {
      var k := CodeIsListed(code);
      Entries(k);
      forall i: nat | i < k ensures !(CALLING_PREFIXES[i].0 <= digits) {
        Entries(i);
        OneCodeFits(digits, i, k);
      }
      FirstFit(CALLING_PREFIXES, digits, k);
    }
  }

  /** "+", then the code. */
  predicate BeginsWith(phone: string, code: nat) {
    phone != "" && phone[0] == '+' && Dialled(code) <= phone[1..]
  }

  lemma NoCodeBeginsWithOne(code: nat, digits: string)
    requires RegionOfCode(code).Some? && Dialled(code) <= digits
    ensures !("1" <= digits)
  {
    var k := CodeIsListed(code);
    hide RegionOfCode;
    assert Dialled(code)[0] == digits[0] && Dialled(code)[0] != '1';
  }

  lemma TwoLetters(code: nat)
    requires RegionOfCode(code).Some?
    ensures |RegionOfCode(code).value| == 2
  {
  }

  lemma SharedPlan(phone: string)
    ensures "+1" <= phone <==> phone != "" && phone[0] == '+' && "1" <= phone[1..]
  {
    if "+1" <= phone {
      assert phone[..2] == "+1" && phone[1..][0] == '1';
    }
  }

  /** A number carries a region exactly when it begins with a code of the region; "+1" is the shared plan. */
  lemma CallingRegionIff(phone: string, region: string)
    ensures region != NANP ==>
              (CallingRegion(phone) == Some(region)
               <==> exists code :: RegionOfCode(code) == Some(region) && BeginsWith(phone, code))
    ensures CallingRegion(phone) == Some(NANP) <==> "+1" <= phone
  {
    SharedPlan(phone);
    forall code: nat | RegionOfCode(code).Some? ensures RegionOfCode(code) != Some(NANP) { TwoLetters(code); }
    if phone != "" {
      FirstPrefixIff(phone[1..], region);
      FirstPrefixIff(phone[1..], NANP);
      forall code: nat | RegionOfCode(code).Some? && Dialled(code) <= phone[1..] ensures !("1" <= phone[1..]) {
        NoCodeBeginsWithOne(code, phone[1..]);
      }
    }
    hide RegionOfCode, Dialled, FirstPrefix;
  }

  /** The regions that may be called: those with a code, but for Yemen, and two on the shared plan. */
  predicate Callable(region: string) {
    region in {"US", "CA"} || (region != "YE" && exists code: nat :: code < 1000 && RegionOfCode(code) == Some(region))
  }

  ghost predicate HasCode(region: string) {
    exists code: nat :: code < 1000 && RegionOfCode(code) == Some(region)
  }

  lemma HasCodeToEs(region: string)
    requires region in {"AE", "AU", "BD", "BR", "BW", "CM", "DE", "EG", "ES", "FI"}
    ensures HasCode(region)
  {
    assert RegionOfCode(971) == Some("AE") && RegionOfCode(61) == Some("AU") && RegionOfCode(880) == Some("BD")
           && RegionOfCode(55) == Some("BR") && RegionOfCode(267) == Some("BW") && RegionOfCode(237) == Some("CM")
           && RegionOfCode(49) == Some("DE") && RegionOfCode(20) == Some("EG") && RegionOfCode(34) == Some("ES")
           && RegionOfCode(358) == Some("FI");
    hide RegionOfCode;
  }

  lemma HasCodeToKe(region: string)
    requires region in {"FR", "GB", "GH", "HN", "ID", "IE", "IL", "IN", "JP", "KE"}
    ensures HasCode(region)
  {
    assert RegionOfCode(33) == Some("FR") && RegionOfCode(44) == Some("GB") && RegionOfCode(233) == Some("GH")
           && RegionOfCode(504) == Some("HN") && RegionOfCode(62) == Some("ID") && RegionOfCode(353) == Some("IE")
           && RegionOfCode(972) == Some("IL") && RegionOfCode(91) == Some("IN") && RegionOfCode(81) == Some("JP")
           && RegionOfCode(254) == Some("KE");
    hide RegionOfCode;
  }

  lemma HasCodeToPh(region: string)
    requires region in {"LK", "MX", "MY", "MZ", "NA", "NG", "NL", "OM", "PH", "PK"}
    ensures HasCode(region)
  {
    assert RegionOfCode(94) == Some("LK") && RegionOfCode(52) == Some("MX") && RegionOfCode(60) == Some("MY")
           && RegionOfCode(258) == Some("MZ") && RegionOfCode(264) == Some("NA") && RegionOfCode(234) == Some("NG")
           && RegionOfCode(31) == Some("NL") && RegionOfCode(968) == Some("OM") && RegionOfCode(63) == Some("PH")
           && RegionOfCode(92) == Some("PK");
    hide RegionOfCode;
  }

  lemma HasCodeToZa(region: string)
    requires region in {"PL", "SA", "SG", "TH", "TN", "TR", "TW", "UA", "VN", "ZA"}
    ensures HasCode(region)
  {
    assert RegionOfCode(48) == Some("PL") && RegionOfCode(966) == Some("SA") && RegionOfCode(65) == Some("SG")
           && RegionOfCode(66) == Some("TH") && RegionOfCode(216) == Some("TN") && RegionOfCode(90) == Some("TR")
           && RegionOfCode(886) == Some("TW") && RegionOfCode(380) == Some("UA") && RegionOfCode(84) == Some("VN")
           && RegionOfCode(27) == Some("ZA");
    hide RegionOfCode;
  }

  lemma SupportedHasCode(region: string)
    requires region in SUPPORTED_REGIONS - {"US", "CA"}
    ensures HasCode(region)
  {
    if region in {"AE", "AU", "BD", "BR", "BW", "CM", "DE", "EG", "ES", "FI"} { HasCodeToEs(region); }
    if region in {"FR", "GB", "GH", "HN", "ID", "IE", "IL", "IN", "JP", "KE"} { HasCodeToKe(region); }
    if region in {"LK", "MX", "MY", "MZ", "NA", "NG", "NL", "OM", "PH", "PK"} { HasCodeToPh(region); }
    if region in {"PL", "SA", "SG", "TH", "TN", "TR", "TW", "UA", "VN", "ZA"} { HasCodeToZa(region); }
    hide HasCode;
  }

  lemma CodeIsSupported(k: nat)
    requires k < |CALLING_PREFIXES| && k != 15
    ensures CALLING_PREFIXES[k].1 in SUPPORTED_REGIONS
  {
  }

  lemma SupportedIff(region: string)
    ensures region in SUPPORTED_REGIONS <==> Callable(region)
  {
    assert "YE" !in SUPPORTED_REGIONS;
    if region in SUPPORTED_REGIONS - {"US", "CA"} {
      SupportedHasCode(region);
    }
    if code: nat :| region != "YE" && code < 1000 && RegionOfCode(code) == Some(region) {
      var k := CodeIsListed(code);
      Entries(k);
      YemenEntry();
      CodeIsSupported(k);
    }
    hide RegionOfCode;
  }

  /** A number and the region it is said to be in may be called. */
  ghost predicate Servable(phone: string, region: string, allowlistRegion: string) {
    && Callable(region)
    && ((exists code: nat :: RegionOfCode(code) == Some(region) && BeginsWith(phone, code))
        || ("+1" <= phone && region == allowlistRegion))
  }

  /**
   * The gate passes a number exactly when it begins with the code of its region, or with "+1" and
   * the region is the configured one, and the region may be called.
   */
  lemma RegionAllowedIff(phone: string, region: string, allowlistRegion: string)
    ensures RegionAllowed(phone, region, allowlistRegion) <==> Servable(phone, region, allowlistRegion)
  {
    CallingRegionIff(phone, region);
    CallingRegionIff(phone, "YE");
    SupportedIff(region);
    if "+1" <= phone {
      forall code: nat | RegionOfCode(code).Some? ensures !BeginsWith(phone, code) {
        SharedPlan(phone);
        if BeginsWith(phone, code) { NoCodeBeginsWithOne(code, phone[1..]); }
      }
    }
    assert NANP !in SUPPORTED_REGIONS && "YE" !in SUPPORTED_REGIONS;
    hide RegionOfCode, Dialled, CallingRegion, BeginsWith, Callable;
  }
}
