/**
 * `normalizeDistrictName`: the canonical form of a Chhattisgarh district name,
 * used both for the district filter sent upstream and for matching the records
 * the wide fallback query returns.
 *
 * The name is upper-cased, its hyphens become spaces, its whitespace runs
 * become single spaces and it is trimmed. Then a fixed, ordered list of
 * override rules maps the names of merged or renamed districts to the one name
 * the upstream dataset uses: the first rule with a pattern occurring in the
 * cleaned name decides, and a name no rule touches is returned as cleaned.
 */
module District {
  import opened Wrappers
  import opened Text

  /**
   * The shape of every normalized name: no lower-case ASCII letter, no hyphen,
   * no whitespace but single spaces, and no space at either end.
   */
  predicate IsCleanName(s: string) {
    (forall c :: c in s ==> IsCleanChar(c))
    && NoDoubleSpace(s)
    && (|s| == 0 || (s[0] != ' ' && s[|s| - 1] != ' '))
  }

  predicate IsCleanChar(c: char) {
    !IsAsciiLower(c) && c != '-' && (IsSpace(c) ==> c == ' ')
  }

  /** The `base` of the normalizer: upper-case, hyphens to spaces, collapse whitespace, trim. */
  function Clean(s: string): (r: string)
    ensures IsCleanName(r)
  {
    var h := HyphensToSpaces(Upper(s));
    HyphensRemoveLowerAndHyphens(s);
    TrimmedCollapseIsClean(h);
    Trim(CollapseSpaces(h))
  }

  lemma HyphensRemoveLowerAndHyphens(s: string)
    ensures forall c :: c in HyphensToSpaces(Upper(s)) ==> !IsAsciiLower(c) && c != '-'
  {
    var u := Upper(s);
    var h := HyphensToSpaces(u);
    forall c | c in h
      ensures !IsAsciiLower(c) && c != '-'
    {
      var i :| 0 <= i < |h| && h[i] == c;
      assert u[i] == UpperChar(s[i]);
    }
  }

  lemma TrimmedCollapseIsClean(h: string)
    requires forall c :: c in h ==> !IsAsciiLower(c) && c != '-'
    ensures IsCleanName(Trim(CollapseSpaces(h)))
  {
    var c := CollapseSpaces(h);
    assert forall x :: x in c ==> IsCleanChar(x);
    TrimKeepsCleanName(c);
  }

  lemma TrimKeepsCleanName(c: string)
    requires forall x :: x in c ==> IsCleanChar(x)
    requires NoDoubleSpace(c)
    ensures IsCleanName(Trim(c))
  {
    var t := Trim(c);
    var d := TrimAt(c);
    forall x | x in t
      ensures IsCleanChar(x)
    {
      var i :| 0 <= i < |t| && t[i] == x;
      assert c[d + i] in c;
    }
    forall i | 0 <= i < |t| - 1
      ensures !(t[i] == ' ' && t[i + 1] == ' ')
    {
      assert t[i] == c[d + i] && t[i + 1] == c[d + i + 1];
    }
  }

  /** The override names the normalizer returns, and their own shape. */
  lemma CanonicalNamesAreClean()
    ensures IsCleanName("KAWARDHA")
    ensures IsCleanName("GAURELA PENDRA MARWAHI")
    ensures HyphensToSpaces("MANENDRAGARH-CHIRMIRI-BHARATPUR") == "MANENDRAGARH CHIRMIRI BHARATPUR"
    ensures HyphensToSpaces("KHAIRAGARH-CHHUIKHADAN-GANDAI") == "KHAIRAGARH CHHUIKHADAN GANDAI"
    ensures HyphensToSpaces("MOHLA-MANPUR-AMBAGARH CHOWKI") == "MOHLA MANPUR AMBAGARH CHOWKI"
    ensures IsCleanName("MANENDRAGARH CHIRMIRI BHARATPUR")
    ensures IsCleanName("KHAIRAGARH CHHUIKHADAN GANDAI")
    ensures IsCleanName("MOHLA MANPUR AMBAGARH CHOWKI")
  {
    ShortNamesAreClean();
    ManendragarhIsClean();
    KhairagarhIsClean();
    MohlaIsClean();
  }

  lemma ShortNamesAreClean()
    ensures IsCleanName("KAWARDHA")
    ensures IsCleanName("GAURELA PENDRA MARWAHI")
  {
    KawardhaCharacters();
    GaurelaCharacters();
  }

  lemma KawardhaCharacters()
    ensures forall c :: c in "KAWARDHA" ==> IsCleanChar(c)
  {
  }

  lemma GaurelaCharacters()
    ensures forall c :: c in "GAURELA PENDRA MARWAHI" ==> IsCleanChar(c)
  {
  }

  lemma ManendragarhIsClean()
    ensures HyphensToSpaces("MANENDRAGARH-CHIRMIRI-BHARATPUR") == "MANENDRAGARH CHIRMIRI BHARATPUR"
    ensures IsCleanName("MANENDRAGARH CHIRMIRI BHARATPUR")
  {
    ManendragarhSpelling();
    ManendragarhCharacters();
  }

  lemma ManendragarhCharacters()
    ensures forall c :: c in "MANENDRAGARH CHIRMIRI BHARATPUR" ==> IsCleanChar(c)
  {
  }

  lemma ManendragarhSpelling()
    ensures HyphensToSpaces("MANENDRAGARH-CHIRMIRI-BHARATPUR") == "MANENDRAGARH CHIRMIRI BHARATPUR"
  {
  }

  lemma KhairagarhIsClean()
    ensures HyphensToSpaces("KHAIRAGARH-CHHUIKHADAN-GANDAI") == "KHAIRAGARH CHHUIKHADAN GANDAI"
    ensures IsCleanName("KHAIRAGARH CHHUIKHADAN GANDAI")
  {
    KhairagarhSpelling();
    KhairagarhCharacters();
  }

  lemma KhairagarhCharacters()
    ensures forall c :: c in "KHAIRAGARH CHHUIKHADAN GANDAI" ==> IsCleanChar(c)
  {
  }

  lemma KhairagarhSpelling()
    ensures HyphensToSpaces("KHAIRAGARH-CHHUIKHADAN-GANDAI") == "KHAIRAGARH CHHUIKHADAN GANDAI"
  {
  }

  lemma MohlaIsClean()
    ensures HyphensToSpaces("MOHLA-MANPUR-AMBAGARH CHOWKI") == "MOHLA MANPUR AMBAGARH CHOWKI"
    ensures IsCleanName("MOHLA MANPUR AMBAGARH CHOWKI")
  {
    MohlaSpelling();
    MohlaCharacters();
  }

  lemma MohlaCharacters()
    ensures forall c :: c in "MOHLA MANPUR AMBAGARH CHOWKI" ==> IsCleanChar(c)
  {
  }

  lemma MohlaSpelling()
    ensures HyphensToSpaces("MOHLA-MANPUR-AMBAGARH CHOWKI") == "MOHLA MANPUR AMBAGARH CHOWKI"
  {
  }

  /** `normalizeDistrictName(name)`; `None` stands for `undefined`, which is read as the empty string. */
  function Normalize(name: Option<string>): (r: string)
    ensures IsCleanName(r)
    ensures name.GetOr("") == "" ==> r == ""
  {
    Canonicalize(Clean(name.GetOr("")))
  }

  /** The chain of override rules applied to the cleaned name `base`. */
  function Canonicalize(base: string): (r: string)
    ensures IsCleanName(base) ==> IsCleanName(r)
    ensures base == "" ==> r == ""
  {
    CanonicalNamesAreClean();
    if Contains(base, "KABIRDHAM") then "KAWARDHA"
    else if Contains(base, "GAURELA") || Contains(base, "PENDRA") || Contains(base, "MARWAHI") then
      "GAURELA PENDRA MARWAHI"
    else if Contains(base, "MANENDRAGARH") || Contains(base, "CHIRMIRI") || Contains(base, "BHARATPUR") then
      "MANENDRAGARH CHIRMIRI BHARATPUR"
    else if Contains(base, "KHAIRAGARH") || Contains(base, "CHHUIKHADAN") || Contains(base, "GANDAI") then
      "KHAIRAGARH CHHUIKHADAN GANDAI"
    else if Contains(base, "MOHLA") || Contains(base, "MANPUR") || Contains(base, "AMBAGARH") then
      "MOHLA MANPUR AMBAGARH CHOWKI"
    else base
  }

  // ----- the override rules as a table -----

  /** One override rule: any of `patterns` occurring in the cleaned name selects `canonical`. */
  datatype Override = Override(patterns: seq<string>, canonical: string)

  predicate Applies(rule: Override, base: string) {
    exists i | 0 <= i < |rule.patterns| :: Contains(base, rule.patterns[i])
  }

  /** The override rules, in the order the normalizer tries them. */
  const Overrides: seq<Override> := [
    Override(["KABIRDHAM"], "KAWARDHA"),
    Override(["GAURELA", "PENDRA", "MARWAHI"], "GAURELA PENDRA MARWAHI"),
    Override(["MANENDRAGARH", "CHIRMIRI", "BHARATPUR"], "MANENDRAGARH CHIRMIRI BHARATPUR"),
    Override(["KHAIRAGARH", "CHHUIKHADAN", "GANDAI"], "KHAIRAGARH CHHUIKHADAN GANDAI"),
    Override(["MOHLA", "MANPUR", "AMBAGARH"], "MOHLA MANPUR AMBAGARH CHOWKI")
  ]

  /** The index of the first rule of `rules` that applies to `base`, if any. */
  function FirstOverride(rules: seq<Override>, base: string): (r: Option<nat>)
    ensures r.Some? ==> r.value < |rules| && Applies(rules[r.value], base)
    ensures r.Some? ==> forall j :: 0 <= j < r.value ==> !Applies(rules[j], base)
    ensures r.None? ==> forall j :: 0 <= j < |rules| ==> !Applies(rules[j], base)
    decreases |rules|
  {
    if |rules| == 0 then None
    else if Applies(rules[0], base) then Some(0)
    else
      match FirstOverride(rules[1..], base)
      case Some(k) => Some(k + 1)
      case None => None
  }

  /** First match wins over the table; a name no rule touches is kept. */
  function ApplyOverrides(base: string): string {
    match FirstOverride(Overrides, base)
    case Some(k) => Overrides[k].canonical
    case None => base
  }

  /** The normalizer's chain of `if`s is the table read first match first. */
  lemma CanonicalizeFollowsTable(base: string)
    ensures Canonicalize(base) == ApplyOverrides(base)
  {
    RulesSpelledOut(base);
    if Applies(Overrides[0], base) {
      FirstOverrideIs(base, 0);
    } else if Applies(Overrides[1], base) {
      FirstOverrideIs(base, 1);
    } else if Applies(Overrides[2], base) {
      FirstOverrideIs(base, 2);
    } else if Applies(Overrides[3], base) {
      FirstOverrideIs(base, 3);
    } else if Applies(Overrides[4], base) {
      FirstOverrideIs(base, 4);
    }
  }

  /** Each rule of the table applies exactly when the source's condition for it holds. */
  lemma RulesSpelledOut(base: string)
    ensures Applies(Overrides[0], base) <==> Contains(base, "KABIRDHAM")
    ensures Applies(Overrides[1], base) <==>
      Contains(base, "GAURELA") || Contains(base, "PENDRA") || Contains(base, "MARWAHI")
    ensures Applies(Overrides[2], base) <==>
      Contains(base, "MANENDRAGARH") || Contains(base, "CHIRMIRI") || Contains(base, "BHARATPUR")
    ensures Applies(Overrides[3], base) <==>
      Contains(base, "KHAIRAGARH") || Contains(base, "CHHUIKHADAN") || Contains(base, "GANDAI")
    ensures Applies(Overrides[4], base) <==>
      Contains(base, "MOHLA") || Contains(base, "MANPUR") || Contains(base, "AMBAGARH")
  {
    assert Overrides[0].patterns[0] == "KABIRDHAM";
    RuleOfThree(Overrides[1], base);
    RuleOfThree(Overrides[2], base);
    RuleOfThree(Overrides[3], base);
    RuleOfThree(Overrides[4], base);
  }

  /** The contract of `FirstOverride` pins its answer down: the least applying index. */
  lemma FirstOverrideIs(base: string, k: nat)
    requires k < |Overrides| && Applies(Overrides[k], base)
    requires forall j :: 0 <= j < k ==> !Applies(Overrides[j], base)
    ensures FirstOverride(Overrides, base) == Some(k)
  {
    var r := FirstOverride(Overrides, base);
    assert r.Some?;
    assert !(r.value < k);
    assert !(r.value > k);
  }

  lemma RuleOfThree(rule: Override, base: string)
    requires |rule.patterns| == 3
    ensures Applies(rule, base) <==>
      Contains(base, rule.patterns[0]) || Contains(base, rule.patterns[1]) || Contains(base, rule.patterns[2])
  {
  }

  // ----- properties of the normalizer -----

  /** A name already in clean shape is its own cleaned form. */
  lemma CleanFixes(s: string)
    requires IsCleanName(s)
    ensures Clean(s) == s
  {
    assert forall i :: 0 <= i < |s| ==> IsCleanChar(s[i]);
    assert Upper(s) == s;
    assert HyphensToSpaces(s) == s;
    CollapseFixes(s);
    TrimFixes(s);
  }

  /** Rule `k` decides when one of its patterns occurs in the cleaned name and no earlier rule's does. */
  lemma OverridePriority(base: string, k: nat)
    requires k < |Overrides|
    requires Applies(Overrides[k], base)
    requires forall j :: 0 <= j < k ==> !Applies(Overrides[j], base)
    ensures Canonicalize(base) == Overrides[k].canonical
  {
    CanonicalizeFollowsTable(base);
    FirstOverrideIs(base, k);
  }

  /** A cleaned name that no rule applies to is returned as it is. */
  lemma NoOverrideKeepsBase(base: string)
    requires forall j :: 0 <= j < |Overrides| ==> !Applies(Overrides[j], base)
    ensures Canonicalize(base) == base
  {
    CanonicalizeFollowsTable(base);
  }

  /** KAWARDHA matches no rule and is kept as it is. */
  lemma KawardhaIsFixed(s: string)
    requires s == "KAWARDHA"
    ensures Canonicalize(s) == s
  {
    KawardhaLacksKabirdham();
    KawardhaLacksGaurela();
    KawardhaLacksPendra();
    KawardhaLacksMarwahi();
    KawardhaLacksManendragarh();
    KawardhaLacksChirmiri();
    KawardhaLacksBharatpur();
    KawardhaLacksKhairagarh();
    KawardhaLacksChhuikhadan();
    KawardhaLacksGandai();
    KawardhaLacksMohla();
    KawardhaLacksManpur();
    KawardhaLacksAmbagarh();
  }

  /** GAURELA PENDRA MARWAHI matches its own rule and no earlier one. */
  lemma GaurelaIsFixed(s: string)
    requires s == "GAURELA PENDRA MARWAHI"
    ensures Canonicalize(s) == s
  {
    GaurelaLacksKabirdham();
    GaurelaHasOwnPattern();
  }

  /** MANENDRAGARH CHIRMIRI BHARATPUR matches its own rule and no earlier one. */
  lemma ManendragarhIsFixed(s: string)
    requires s == "MANENDRAGARH CHIRMIRI BHARATPUR"
    ensures Canonicalize(s) == s
  {
    ManendragarhLacksKabirdham();
    ManendragarhLacksGaurela();
    ManendragarhLacksPendra();
    ManendragarhLacksMarwahi();
    ManendragarhHasOwnPattern();
  }

  /** KHAIRAGARH CHHUIKHADAN GANDAI matches its own rule and no earlier one. */
  lemma KhairagarhIsFixed(s: string)
    requires s == "KHAIRAGARH CHHUIKHADAN GANDAI"
    ensures Canonicalize(s) == s
  {
    KhairagarhLacksKabirdham();
    KhairagarhLacksGaurela();
    KhairagarhLacksPendra();
    KhairagarhLacksMarwahi();
    KhairagarhLacksManendragarh();
    KhairagarhLacksChirmiri();
    KhairagarhLacksBharatpur();
    KhairagarhHasOwnPattern();
  }

  /** MOHLA MANPUR AMBAGARH CHOWKI matches its own rule and no earlier one. */
  lemma MohlaIsFixed(s: string)
    requires s == "MOHLA MANPUR AMBAGARH CHOWKI"
    ensures Canonicalize(s) == s
  {
    MohlaLacksKabirdham();
    MohlaLacksGaurela();
    MohlaLacksPendra();
    MohlaLacksMarwahi();
    MohlaLacksManendragarh();
    MohlaLacksChirmiri();
    MohlaLacksBharatpur();
    MohlaLacksKhairagarh();
    MohlaLacksChhuikhadan();
    MohlaLacksGandai();
    MohlaHasOwnPattern();
  }

  // Each override name contains, or does not contain, the patterns tried before its own.

  lemma KawardhaLacksKabirdham()
    ensures !Contains("KAWARDHA", "KABIRDHAM")
  {
    NotContainsByWindow("KAWARDHA", "KABIRDHAM", 0);
  }

  lemma KawardhaLacksGaurela()
    ensures !Contains("KAWARDHA", "GAURELA")
  {
    NotContainsByWindow("KAWARDHA", "GAURELA", 0);
  }

  lemma KawardhaLacksPendra()
    ensures !Contains("KAWARDHA", "PENDRA")
  {
    NotContainsByWindow("KAWARDHA", "PENDRA", 0);
  }

  lemma KawardhaLacksMarwahi()
    ensures !Contains("KAWARDHA", "MARWAHI")
  {
    NotContainsByWindow("KAWARDHA", "MARWAHI", 0);
  }

  lemma KawardhaLacksManendragarh()
    ensures !Contains("KAWARDHA", "MANENDRAGARH")
  {
    NotContainsByWindow("KAWARDHA", "MANENDRAGARH", 0);
  }

  lemma KawardhaLacksChirmiri()
    ensures !Contains("KAWARDHA", "CHIRMIRI")
  {
    NotContainsByWindow("KAWARDHA", "CHIRMIRI", 0);
  }

  lemma KawardhaLacksBharatpur()
    ensures !Contains("KAWARDHA", "BHARATPUR")
  {
    NotContainsByWindow("KAWARDHA", "BHARATPUR", 0);
  }

  lemma KawardhaLacksKhairagarh()
    ensures !Contains("KAWARDHA", "KHAIRAGARH")
  {
    NotContainsByWindow("KAWARDHA", "KHAIRAGARH", 0);
  }

  lemma KawardhaLacksChhuikhadan()
    ensures !Contains("KAWARDHA", "CHHUIKHADAN")
  {
    NotContainsByWindow("KAWARDHA", "CHHUIKHADAN", 0);
  }

  lemma KawardhaLacksGandai()
    ensures !Contains("KAWARDHA", "GANDAI")
  {
    NotContainsByWindow("KAWARDHA", "GANDAI", 0);
  }

  lemma KawardhaLacksMohla()
    ensures !Contains("KAWARDHA", "MOHLA")
  {
    NotContainsByWindow("KAWARDHA", "MOHLA", 0);
  }

  lemma KawardhaLacksManpur()
    ensures !Contains("KAWARDHA", "MANPUR")
  {
    NotContainsByWindow("KAWARDHA", "MANPUR", 0);
  }

  lemma KawardhaLacksAmbagarh()
    ensures !Contains("KAWARDHA", "AMBAGARH")
  {
    NotContainsByWindow("KAWARDHA", "AMBAGARH", 0);
  }

  lemma GaurelaLacksKabirdham()
    ensures !Contains("GAURELA PENDRA MARWAHI", "KABIRDHAM")
  {
    NotContainsByWindow("GAURELA PENDRA MARWAHI", "KABIRDHAM", 0);
  }

  lemma GaurelaHasOwnPattern()
    ensures Contains("GAURELA PENDRA MARWAHI", "GAURELA")
  {
    ContainsAt("GAURELA PENDRA MARWAHI", "GAURELA", 0);
  }

  lemma ManendragarhLacksKabirdham()
    ensures !Contains("MANENDRAGARH CHIRMIRI BHARATPUR", "KABIRDHAM")
  {
    NotContainsByWindow("MANENDRAGARH CHIRMIRI BHARATPUR", "KABIRDHAM", 0);
  }

  lemma ManendragarhLacksGaurela()
    ensures !Contains("MANENDRAGARH CHIRMIRI BHARATPUR", "GAURELA")
  {
    NotContainsByWindow("MANENDRAGARH CHIRMIRI BHARATPUR", "GAURELA", 2);
  }

  lemma ManendragarhLacksPendra()
    ensures !Contains("MANENDRAGARH CHIRMIRI BHARATPUR", "PENDRA")
  {
    NotContainsByWindow("MANENDRAGARH CHIRMIRI BHARATPUR", "PENDRA", 0);
  }

  lemma ManendragarhLacksMarwahi()
    ensures !Contains("MANENDRAGARH CHIRMIRI BHARATPUR", "MARWAHI")
  {
    NotContainsByWindow("MANENDRAGARH CHIRMIRI BHARATPUR", "MARWAHI", 3);
  }

  lemma ManendragarhHasOwnPattern()
    ensures Contains("MANENDRAGARH CHIRMIRI BHARATPUR", "MANENDRAGARH")
  {
    ContainsAt("MANENDRAGARH CHIRMIRI BHARATPUR", "MANENDRAGARH", 0);
  }

  lemma KhairagarhLacksKabirdham()
    ensures !Contains("KHAIRAGARH CHHUIKHADAN GANDAI", "KABIRDHAM")
  {
    NotContainsByWindow("KHAIRAGARH CHHUIKHADAN GANDAI", "KABIRDHAM", 2);
  }

  lemma KhairagarhLacksGaurela()
    ensures !Contains("KHAIRAGARH CHHUIKHADAN GANDAI", "GAURELA")
  {
    NotContainsByWindow("KHAIRAGARH CHHUIKHADAN GANDAI", "GAURELA", 4);
  }

  lemma KhairagarhLacksPendra()
    ensures !Contains("KHAIRAGARH CHHUIKHADAN GANDAI", "PENDRA")
  {
    NotContainsByWindow("KHAIRAGARH CHHUIKHADAN GANDAI", "PENDRA", 0);
  }

  lemma KhairagarhLacksMarwahi()
    ensures !Contains("KHAIRAGARH CHHUIKHADAN GANDAI", "MARWAHI")
  {
    NotContainsByWindow("KHAIRAGARH CHHUIKHADAN GANDAI", "MARWAHI", 0);
  }

  lemma KhairagarhLacksManendragarh()
    ensures !Contains("KHAIRAGARH CHHUIKHADAN GANDAI", "MANENDRAGARH")
  {
    NotContainsByWindow("KHAIRAGARH CHHUIKHADAN GANDAI", "MANENDRAGARH", 0);
  }

  lemma KhairagarhLacksChirmiri()
    ensures !Contains("KHAIRAGARH CHHUIKHADAN GANDAI", "CHIRMIRI")
  {
    NotContainsByWindow("KHAIRAGARH CHHUIKHADAN GANDAI", "CHIRMIRI", 4);
  }

  lemma KhairagarhLacksBharatpur()
    ensures !Contains("KHAIRAGARH CHHUIKHADAN GANDAI", "BHARATPUR")
  {
    NotContainsByWindow("KHAIRAGARH CHHUIKHADAN GANDAI", "BHARATPUR", 0);
  }

  lemma KhairagarhHasOwnPattern()
    ensures Contains("KHAIRAGARH CHHUIKHADAN GANDAI", "KHAIRAGARH")
  {
    ContainsAt("KHAIRAGARH CHHUIKHADAN GANDAI", "KHAIRAGARH", 0);
  }

  lemma MohlaLacksKabirdham()
    ensures !Contains("MOHLA MANPUR AMBAGARH CHOWKI", "KABIRDHAM")
  {
    NotContainsByWindow("MOHLA MANPUR AMBAGARH CHOWKI", "KABIRDHAM", 0);
  }

  lemma MohlaLacksGaurela()
    ensures !Contains("MOHLA MANPUR AMBAGARH CHOWKI", "GAURELA")
  {
    NotContainsByWindow("MOHLA MANPUR AMBAGARH CHOWKI", "GAURELA", 4);
  }

  lemma MohlaLacksPendra()
    ensures !Contains("MOHLA MANPUR AMBAGARH CHOWKI", "PENDRA")
  {
    NotContainsByWindow("MOHLA MANPUR AMBAGARH CHOWKI", "PENDRA", 1);
  }

  lemma MohlaLacksMarwahi()
    ensures !Contains("MOHLA MANPUR AMBAGARH CHOWKI", "MARWAHI")
  {
    NotContainsByWindow("MOHLA MANPUR AMBAGARH CHOWKI", "MARWAHI", 3);
  }

  lemma MohlaLacksManendragarh()
    ensures !Contains("MOHLA MANPUR AMBAGARH CHOWKI", "MANENDRAGARH")
  {
    NotContainsByWindow("MOHLA MANPUR AMBAGARH CHOWKI", "MANENDRAGARH", 3);
  }

  lemma MohlaLacksChirmiri()
    ensures !Contains("MOHLA MANPUR AMBAGARH CHOWKI", "CHIRMIRI")
  {
    NotContainsByWindow("MOHLA MANPUR AMBAGARH CHOWKI", "CHIRMIRI", 0);
  }

  lemma MohlaLacksBharatpur()
    ensures !Contains("MOHLA MANPUR AMBAGARH CHOWKI", "BHARATPUR")
  {
    NotContainsByWindow("MOHLA MANPUR AMBAGARH CHOWKI", "BHARATPUR", 5);
  }

  lemma MohlaLacksKhairagarh()
    ensures !Contains("MOHLA MANPUR AMBAGARH CHOWKI", "KHAIRAGARH")
  {
    NotContainsByWindow("MOHLA MANPUR AMBAGARH CHOWKI", "KHAIRAGARH", 0);
  }

  lemma MohlaLacksChhuikhadan()
    ensures !Contains("MOHLA MANPUR AMBAGARH CHOWKI", "CHHUIKHADAN")
  {
    NotContainsByWindow("MOHLA MANPUR AMBAGARH CHOWKI", "CHHUIKHADAN", 0);
  }

  lemma MohlaLacksGandai()
    ensures !Contains("MOHLA MANPUR AMBAGARH CHOWKI", "GANDAI")
  {
    NotContainsByWindow("MOHLA MANPUR AMBAGARH CHOWKI", "GANDAI", 3);
  }

  lemma MohlaHasOwnPattern()
    ensures Contains("MOHLA MANPUR AMBAGARH CHOWKI", "MOHLA")
  {
    ContainsAt("MOHLA MANPUR AMBAGARH CHOWKI", "MOHLA", 0);
  }

  /** Every override name is clean and is mapped to itself. */
  lemma CanonicalIsFixed(k: nat)
    requires k < |Overrides|
    ensures Clean(Overrides[k].canonical) == Overrides[k].canonical
    ensures Canonicalize(Overrides[k].canonical) == Overrides[k].canonical
  {
    CanonicalNamesAreClean();
    CleanFixes(Overrides[k].canonical);
    if k == 0 { KawardhaIsFixed(Overrides[k].canonical); }
    else if k == 1 { GaurelaIsFixed(Overrides[k].canonical); }
    else if k == 2 { ManendragarhIsFixed(Overrides[k].canonical); }
    else if k == 3 { KhairagarhIsFixed(Overrides[k].canonical); }
    else { MohlaIsFixed(Overrides[k].canonical); }
  }

  /** On a clean name the override chain yields a clean name that it maps to itself. */
  lemma CanonicalizeSettles(base: string)
    requires IsCleanName(base)
    ensures Clean(Canonicalize(base)) == Canonicalize(base)
    ensures Canonicalize(Canonicalize(base)) == Canonicalize(base)
  {
    CanonicalizeFollowsTable(base);
    match FirstOverride(Overrides, base)
    case Some(k) =>
      CanonicalIsFixed(k);
    case None =>
      CleanFixes(base);
  }

  /** Normalizing a normalized name changes nothing. */
  lemma NormalizeIdempotent(name: Option<string>)
    ensures Normalize(Some(Normalize(name))) == Normalize(name)
  {
    CanonicalizeSettles(Clean(name.GetOr("")));
  }

  /** The normalizer does not see the case of ASCII letters. */
  lemma NormalizeIgnoresAsciiCase(s: string)
    ensures Normalize(Some(Lower(s))) == Normalize(Some(s))
    ensures Normalize(Some(Upper(s))) == Normalize(Some(s))
  {
    UpperOfLower(s);
    UpperOfUpper(s);
  }

  /** A word without hyphens that occurs in the upper-cased name survives cleaning. */
  lemma CleanKeepsWord(s: string, w: string)
    requires IsWord(w) && '-' !in w
    requires Contains(Upper(s), w)
    ensures Contains(Clean(s), w)
  {
    var u := Upper(s);
    var i :| 0 <= i <= |u| - |w| && OccursAt(u, w, i);
    HyphensKeepWord(u, w, i);
    var c := CollapseSpaces(HyphensToSpaces(u));
    CollapseKeepsWord(HyphensToSpaces(u), w, i);
    var j :| 0 <= j <= |c| - |w| && OccursAt(c, w, j);
    TrimKeepsWord(c, w, j);
  }

  /** A word found in the cleaned name occurs in the upper-cased name. */
  lemma CleanRevealsWord(s: string, w: string)
    requires IsWord(w)
    requires Contains(Clean(s), w)
    ensures Contains(Upper(s), w)
  {
    var u := Upper(s);
    var h := HyphensToSpaces(u);
    var c := CollapseSpaces(h);
    var i :| 0 <= i <= |Trim(c)| - |w| && OccursAt(Trim(c), w, i);
    TrimRevealsWord(c, w, i);
    var j :| 0 <= j <= |c| - |w| && OccursAt(c, w, j);
    CollapseRevealsWord(h, w, j);
    var k :| 0 <= k <= |h| - |w| && OccursAt(h, w, k);
    HyphensRevealWord(u, w, k);
  }

  /** For a word without hyphens, the cleaned name and the upper-cased name agree on whether it occurs. */
  lemma CleanFindsWord(s: string, w: string)
    requires IsWord(w) && '-' !in w
    ensures Contains(Clean(s), w) <==> Contains(Upper(s), w)
  {
    if Contains(Upper(s), w) {
      CleanKeepsWord(s, w);
    }
    if Contains(Clean(s), w) {
      CleanRevealsWord(s, w);
    }
  }

  /** Every pattern of the table is a word without a hyphen. */
  lemma PatternsAreWords(k: nat, i: nat)
    requires k < |Overrides| && i < |Overrides[k].patterns|
    ensures IsWord(Overrides[k].patterns[i]) && '-' !in Overrides[k].patterns[i]
  {
    var p := Overrides[k].patterns[i];
    UpperLettersMakeWord(p);
  }

  lemma UpperLettersMakeWord(p: string)
    requires |p| > 0 && forall j :: 0 <= j < |p| ==> IsAsciiUpper(p[j])
    ensures IsWord(p) && '-' !in p
  {
  }

  /** A rule applies to the cleaned name exactly when it applies to the upper-cased name. */
  lemma AppliesThroughClean(s: string, k: nat)
    requires k < |Overrides|
    ensures Applies(Overrides[k], Clean(s)) <==> Applies(Overrides[k], Upper(s))
  {
    forall i | 0 <= i < |Overrides[k].patterns|
      ensures Contains(Clean(s), Overrides[k].patterns[i]) <==> Contains(Upper(s), Overrides[k].patterns[i])
    {
      PatternsAreWords(k, i);
      CleanFindsWord(s, Overrides[k].patterns[i]);
    }
  }

  /** Two names on which every rule agrees get the same first rule. */
  lemma {:induction false} FirstOverrideAgrees(rules: seq<Override>, a: string, b: string)
    requires forall j :: 0 <= j < |rules| ==> (Applies(rules[j], a) <==> Applies(rules[j], b))
    ensures FirstOverride(rules, a) == FirstOverride(rules, b)
    decreases |rules|
  {
    if |rules| > 0 && !Applies(rules[0], a) {
      assert forall j :: 0 <= j < |rules| - 1 ==> rules[1..][j] == rules[j + 1];
      FirstOverrideAgrees(rules[1..], a, b);
    }
  }

  /** Which override rule the normalizer picks is decided by the upper-cased name alone. */
  lemma RuleChosenFromUpper(s: string)
    ensures FirstOverride(Overrides, Clean(s)) == FirstOverride(Overrides, Upper(s))
  {
    forall k | 0 <= k < |Overrides|
      ensures Applies(Overrides[k], Clean(s)) <==> Applies(Overrides[k], Upper(s))
    {
      AppliesThroughClean(s, k);
    }
    FirstOverrideAgrees(Overrides, Clean(s), Upper(s));
  }

  /** The normalized name: the canonical name of the first rule whose pattern occurs in the upper-cased name, else the cleaned name. */
  lemma NormalizeByUpper(s: string)
    ensures FirstOverride(Overrides, Upper(s)).Some? ==>
      Normalize(Some(s)) == Overrides[FirstOverride(Overrides, Upper(s)).value].canonical
    ensures FirstOverride(Overrides, Upper(s)).None? ==> Normalize(Some(s)) == Clean(s)
  {
    RuleChosenFromUpper(s);
    CanonicalizeFollowsTable(Clean(s));
  }

  /** Any name mentioning Kabirdham, in any letter case and with anything around it, normalizes to KAWARDHA. */
  lemma KabirdhamInAnyCase(s: string)
    requires Contains(Upper(s), "KABIRDHAM")
    ensures Normalize(Some(s)) == "KAWARDHA"
  {
    CleanKeepsWord(s, "KABIRDHAM");
  }
}
