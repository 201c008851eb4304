/**
 * The pure rules of the mix endpoints in index.js: the validation of a new
 * mix, the slug derived from its name, the stored ingredient rows, the sort
 * order of the mix list and the filter of the flavor list.
 */
module MixRules {
  import opened Wrappers
  import opened Text
  import opened Catalog

  // ---------------------------------------------------------------------------
  // Creating a mix (POST /api/mixes)
  // ---------------------------------------------------------------------------

  /** One `{flavorId, percentage}` entry of the request body. */
  datatype IngredientInput = IngredientInput(flavorId: int, percentage: int)

  /** The request body; a field the client left out is `None`. */
  datatype CreateMixRequest = CreateMixRequest(
    name: Option<string>,
    description: Option<string>,
    authorId: Option<int>,
    strength: Option<string>,
    ingredients: Option<seq<IngredientInput>>)

  /** One nested ingredient row created together with the mix. */
  datatype IngredientRow = IngredientRow(flavorId: int, percentage: int)

  /** Everything the handler hands to the store to create a mix. */
  datatype MixDraft = MixDraft(
    name: string,
    slug: string,
    description: Option<string>,
    authorId: int,
    userStrength: string,
    ingredients: seq<IngredientRow>)

  /** The two ways the handler answers 400. */
  datatype CreateError = MissingRequiredFields | PercentageNot100

  datatype Validated = Accepted(draft: MixDraft) | Rejected(error: CreateError)

  /** JavaScript truthiness of the optional request fields. */
  predicate PresentString(s: Option<string>) { s.Some? && s.value != "" }
  predicate PresentId(n: Option<int>) { n.Some? && n.value != 0 }
  predicate PresentList<T>(s: Option<seq<T>>) { s.Some? && |s.value| > 0 }

  /** The required-field test: name, authorId and a non-empty ingredient list. */
  predicate HasRequiredFields(req: CreateMixRequest) {
    PresentString(req.name) && PresentId(req.authorId) && PresentList(req.ingredients)
  }

  /** `ingredients.reduce((sum, ing) => sum + ing.percentage, 0)`. */
  function PercentSum(s: seq<IngredientInput>): int {
    if s == [] then 0 else PercentSum(s[..|s| - 1]) + s[|s| - 1].percentage
  }

  lemma {:induction false} PercentSumAppend(s: seq<IngredientInput>, t: seq<IngredientInput>)
    ensures PercentSum(s + t) == PercentSum(s) + PercentSum(t)
    decreases |t|
  {
    if t != [] {
      assert (s + t)[..|s + t| - 1] == s + t[..|t| - 1];
      PercentSumAppend(s, t[..|t| - 1]);
    } else {
      assert s + t == s;
    }
  }

  /** A list of percentages all in 1..100 sums to 100 only if it has at most 100 entries. */
  lemma {:induction false} PercentSumBounds(s: seq<IngredientInput>)
    requires forall i :: 0 <= i < |s| ==> s[i].percentage >= 1
    ensures PercentSum(s) >= |s|
    decreases |s|
  {
    if s != [] {
      PercentSumBounds(s[..|s| - 1]);
    }
  }

  predicate AllSpace(s: string) {
    forall i :: 0 <= i < |s| ==> IsSpace(s[i])
  }

  /** Leading whitespace dropped. */
  function DropSpaces(s: string): (r: string)
    ensures |r| <= |s|
  {
    if s != [] && IsSpace(s[0]) then DropSpaces(s[1..]) else s
  }

  /** `s.replace(/\s+/g, '-')`: every maximal run of whitespace becomes one hyphen. */
  function Hyphenate(s: string): (r: string)
    ensures NoSpace(r)
    decreases |s|
  {
    if s == [] then []
    else if IsSpace(s[0]) then "-" + Hyphenate(DropSpaces(s[1..]))
    else [s[0]] + Hyphenate(s[1..])
  }

  /** A name without whitespace is left as it is. */
  lemma {:induction false} HyphenateKeepsSpaceFree(s: string)
    requires NoSpace(s)
    ensures Hyphenate(s) == s
    decreases |s|
  {
    if s != [] {
      HyphenateKeepsSpaceFree(s[1..]);
    }
  }

  /** A whole run of whitespace becomes exactly one hyphen. */
  lemma {:induction false} HyphenateRun(s: string)
    requires |s| > 0 && AllSpace(s)
    ensures Hyphenate(s) == "-"
  {
    DropSpacesAllSpace(s[1..]);
  }

  lemma {:induction false} DropSpacesAllSpace(s: string)
    requires AllSpace(s)
    ensures DropSpaces(s) == []
    decreases |s|
  {
    if s != [] {
      DropSpacesAllSpace(s[1..]);
    }
  }

  lemma {:induction false} DropSpacesAppend(a: string, b: string)
    requires !AllSpace(a)
    ensures DropSpaces(a + b) == DropSpaces(a) + b
    decreases |a|
  {
    if IsSpace(a[0]) {
      assert (a + b)[1..] == a[1..] + b;
      DropSpacesAppend(a[1..], b);
    }
  }

  lemma {:induction false} DropSpacesOfAllSpacePrefix(a: string, b: string)
    requires AllSpace(a)
    ensures DropSpaces(a + b) == DropSpaces(b)
    decreases |a|
  {
    if a != [] {
      assert (a + b)[1..] == a[1..] + b;
      DropSpacesOfAllSpacePrefix(a[1..], b);
    } else {
      assert a + b == b;
    }
  }

  /** The last character survives when leading whitespace is dropped from a string that is not all whitespace. */
  lemma {:induction false} DropSpacesLast(a: string)
    requires !AllSpace(a)
    ensures DropSpaces(a) != [] && DropSpaces(a)[|DropSpaces(a)| - 1] == a[|a| - 1]
    decreases |a|
  {
    if IsSpace(a[0]) {
      assert !AllSpace(a[1..]) by {
        var i :| 0 <= i < |a| && !IsSpace(a[i]);
        assert a[1..][i - 1] == a[i];
      }
      DropSpacesLast(a[1..]);
      assert a[1..][|a| - 2] == a[|a| - 1];
    }
  }

  /**
   * Replacement is local: splitting the name anywhere except inside a run of
   * whitespace, the two halves are replaced independently.
   */
  lemma {:induction false} HyphenateConcat(a: string, b: string)
    requires a == [] || b == [] || !IsSpace(a[|a| - 1]) || !IsSpace(b[0])
    ensures Hyphenate(a + b) == Hyphenate(a) + Hyphenate(b)
    decreases |a|, 1
  {
    if a == [] {
      assert a + b == b;
    } else if IsSpace(a[0]) {
      HyphenateConcatSpaceHead(a, b);
    } else {
      assert (a + b)[0] == a[0];
      assert (a + b)[1..] == a[1..] + b;
      if a[1..] != [] {
        assert a[1..][|a[1..]| - 1] == a[|a| - 1];
      }
      HyphenateConcat(a[1..], b);
    }
  }

  lemma {:induction false} HyphenateConcatSpaceHead(a: string, b: string)
    requires a != [] && IsSpace(a[0])
    requires b == [] || !IsSpace(a[|a| - 1]) || !IsSpace(b[0])
    ensures Hyphenate(a + b) == Hyphenate(a) + Hyphenate(b)
    decreases |a|, 0
  {
    var ab := a + b;
    var rest := a[1..];
    assert ab[0] == a[0];
    assert ab[1..] == rest + b;
    assert Hyphenate(ab) == "-" + Hyphenate(DropSpaces(rest + b));
    assert Hyphenate(a) == "-" + Hyphenate(DropSpaces(rest));
    if AllSpace(rest) {
      HyphenateConcatAllSpaceTail(a, b);
    } else {
      DropSpacesAppend(rest, b);
      DropSpacesLast(rest);
      assert rest[|rest| - 1] == a[|a| - 1];
      HyphenateConcat(DropSpaces(rest), b);
    }
  }

  lemma HyphenateConcatAllSpaceTail(a: string, b: string)
    requires a != [] && IsSpace(a[0]) && AllSpace(a[1..])
    requires b == [] || !IsSpace(a[|a| - 1]) || !IsSpace(b[0])
    ensures DropSpaces(a[1..] + b) == b
    ensures DropSpaces(a[1..]) == []
  {
    DropSpacesAllSpace(a[1..]);
    DropSpacesOfAllSpacePrefix(a[1..], b);
    assert IsSpace(a[|a| - 1]) by {
      if |a| > 1 { assert a[|a| - 1] == a[1..][|a| - 2]; }
    }
  }

  /** The slug: the lowercased, hyphenated name, a hyphen and the creation time in milliseconds. */
  function Slug(name: string, now: nat): (r: string)
    ensures NoSpace(r)
  {
    Hyphenate(Lower(name)) + "-" + NatToDecimal(now)
  }

  /** Two mixes of the same name created at different times get different slugs. */
  lemma SlugDistinguishesTimes(name: string, t1: nat, t2: nat)
    requires Slug(name, t1) == Slug(name, t2)
    ensures t1 == t2
  {
    var p := Hyphenate(Lower(name)) + "-";
    assert Slug(name, t1) == p + NatToDecimal(t1);
    assert Slug(name, t2) == p + NatToDecimal(t2);
    assert NatToDecimal(t1) == Slug(name, t1)[|p|..];
    assert NatToDecimal(t2) == Slug(name, t2)[|p|..];
    NatToDecimalInjective(t1, t2);
  }

  /** `ingredients.map(ing => ({ flavorId: ing.flavorId, percentage: ing.percentage }))`. */
  function ToRows(s: seq<IngredientInput>): (r: seq<IngredientRow>)
    ensures |r| == |s|
    ensures forall i :: 0 <= i < |s| ==>
      r[i].flavorId == s[i].flavorId && r[i].percentage == s[i].percentage
  {
    if s == [] then [] else [IngredientRow(s[0].flavorId, s[0].percentage)] + ToRows(s[1..])
  }

  /** The strength stored on the mix: the requested one, `MEDIUM` when absent or empty. */
  function StrengthOrDefault(strength: Option<string>): (r: string)
    ensures PresentString(strength) ==> r == strength.value
    ensures !PresentString(strength) ==> r == "MEDIUM"
  {
    if PresentString(strength) then strength.value else "MEDIUM"
  }

  /** The validation and mapping of POST /api/mixes, `now` standing for `Date.now()`. */
  function ValidateCreate(req: CreateMixRequest, now: nat): (r: Validated)
    ensures r == Rejected(MissingRequiredFields) <==> !HasRequiredFields(req)
    ensures r == Rejected(PercentageNot100) <==>
      HasRequiredFields(req) && PercentSum(req.ingredients.value) != 100
    ensures r.Accepted? ==>
      && r.draft.name == req.name.value
      && r.draft.authorId == req.authorId.value
      && r.draft.description == req.description
      && r.draft.slug == Slug(req.name.value, now)
      && NoSpace(r.draft.slug)
      && r.draft.userStrength == StrengthOrDefault(req.strength)
      && |r.draft.ingredients| == |req.ingredients.value|
      && (forall i :: 0 <= i < |r.draft.ingredients| ==>
            r.draft.ingredients[i] ==
              IngredientRow(req.ingredients.value[i].flavorId, req.ingredients.value[i].percentage))
  {
    if !HasRequiredFields(req) then Rejected(MissingRequiredFields)
    else if PercentSum(req.ingredients.value) != 100 then Rejected(PercentageNot100)
    else Accepted(MixDraft(
      req.name.value,
      Slug(req.name.value, now),
      req.description,
      req.authorId.value,
      StrengthOrDefault(req.strength),
      ToRows(req.ingredients.value)))
  }

  /** The stored percentages of an accepted mix sum to exactly 100. */
  lemma AcceptedSumsTo100(req: CreateMixRequest, now: nat)
    requires ValidateCreate(req, now).Accepted?
    ensures RowSum(ValidateCreate(req, now).draft.ingredients) == 100
  {
    RowSumToRows(req.ingredients.value);
  }

  function RowSum(s: seq<IngredientRow>): int {
    if s == [] then 0 else RowSum(s[..|s| - 1]) + s[|s| - 1].percentage
  }

  lemma {:induction false} RowSumToRows(s: seq<IngredientInput>)
    ensures RowSum(ToRows(s)) == PercentSum(s)
    decreases |s|
  {
    if s != [] {
      var init := s[..|s| - 1];
      assert ToRows(s)[..|s| - 1] == ToRows(init);
      RowSumToRows(init);
    }
  }

  // ---------------------------------------------------------------------------
  // Listing mixes (GET /api/mixes): the sort key
  // ---------------------------------------------------------------------------

  /** The column the mix list is sorted on; every order is descending. */
  datatype SortKey = CreatedAtDesc | RatingDesc | OrdersCountDesc

  /** The `sort` query parameter (absent means `popular`) mapped to the `orderBy` clause. */
  function SortKeyFor(sort: Option<string>): (k: SortKey)
    ensures k == CreatedAtDesc <==> sort == Some("new")
    ensures k == RatingDesc <==> sort == Some("rating")
    ensures k == OrdersCountDesc <==> sort != Some("new") && sort != Some("rating")
  {
    match sort.GetOr("popular")
    case "new" => CreatedAtDesc
    case "rating" => RatingDesc
    case _ => OrdersCountDesc
  }

  // ---------------------------------------------------------------------------
  // Listing flavors (GET /api/flavors): the `where` filter
  // ---------------------------------------------------------------------------

  /** A JavaScript number as `parseInt` yields it: an integer or NaN. */
  datatype JsInt = Num(n: int) | NaN

  predicate IsDigit(c: char) { '0' <= c <= '9' }

  function HexDigitValue(c: char): Option<nat> {
    if '0' <= c <= '9' then Some(c as int - '0' as int)
    else if 'a' <= c <= 'f' then Some(c as int - 'a' as int + 10)
    else if 'A' <= c <= 'F' then Some(c as int - 'A' as int + 10)
    else None
  }

  /** The longest prefix of `s` made of digits of the given radix (10 or 16). */
  function DigitPrefix(s: string, radix: nat): (r: string)
    requires radix == 10 || radix == 16
    ensures r <= s
  {
    if s != [] && HexDigitValue(s[0]).Some? && HexDigitValue(s[0]).value < radix
    then [s[0]] + DigitPrefix(s[1..], radix)
    else []
  }

  function DigitsValue(s: string, radix: nat): nat
    requires radix == 10 || radix == 16
  {
    if s == [] then 0
    else
      var d := HexDigitValue(s[|s| - 1]).GetOr(0);
      radix * DigitsValue(s[..|s| - 1], radix) + d
  }

  /** `parseInt(s)` without a radix: decimal, or hexadecimal after `0x`/`0X`. */
  function ParseInt(s: string): JsInt {
    var t := DropSpaces(s);
    var neg := t != [] && t[0] == '-';
    ParseUnsigned(if t != [] && (t[0] == '-' || t[0] == '+') then t[1..] else t, neg)
  }

  /** The part after the sign: the radix prefix decides between 16 and 10. */
  function ParseUnsigned(u: string, neg: bool): JsInt {
    if |u| >= 2 && u[0] == '0' && (u[1] == 'x' || u[1] == 'X') then ParseDigits(u[2..], 16, neg)
    else ParseDigits(u, 10, neg)
  }

  /** The longest run of digits, NaN when there is none. */
  function ParseDigits(body: string, radix: nat, neg: bool): JsInt
    requires radix == 10 || radix == 16
  {
    var digits := DigitPrefix(body, radix);
    if digits == [] then NaN
    else
      var v: int := DigitsValue(digits, radix);
      Num(if neg then -v else v)
  }

  lemma {:induction false} DigitPrefixOfDecimal(s: string)
    requires AllDigits(s)
    ensures DigitPrefix(s, 10) == s
    decreases |s|
  {
    if s != [] {
      DigitPrefixOfDecimal(s[1..]);
    }
  }

  lemma {:induction false} DigitsValueDecimal(s: string)
    requires AllDigits(s)
    ensures DigitsValue(s, 10) == DecimalValue(s)
    decreases |s|
  {
    if s != [] {
      DigitsValueDecimal(s[..|s| - 1]);
    }
  }

  /** `parseInt` of a string of decimal digits, possibly after a minus sign; leading zeros are read as zeros. */
  lemma ParseIntDigits(d: string, neg: bool)
    requires AllDigits(d) && |d| >= 1
    ensures ParseInt(if neg then "-" + d else d) == Num(if neg then -(DecimalValue(d) as int) else DecimalValue(d))
  {
    var s := if neg then "-" + d else d;
    assert !IsSpace(s[0]);
    assert DropSpaces(s) == s;
    assert (if neg then s[1..] else s) == d;
    DigitPrefixOfDecimal(d);
    DigitsValueDecimal(d);
    assert ParseUnsigned(d, neg) == ParseDigits(d, 10, neg);
  }

  /** `parseInt` reads back every integer's decimal rendering. */
  lemma ParseIntRoundTrip(n: int)
    ensures ParseInt(IntToDecimal(n)) == Num(n)
  {
    var m: nat := if n < 0 then -n else n;
    ParseIntDigits(NatToDecimal(m), n < 0);
    DecimalRoundTrip(m);
  }

  /** Skipping leading whitespace leaves a suffix of the string. */
  lemma {:induction false} DropSpacesSuffix(s: string)
    ensures DropSpaces(s) == s[|s| - |DropSpaces(s)|..]
    decreases |s|
  {
    if s != [] && IsSpace(s[0]) {
      DropSpacesSuffix(s[1..]);
    }
  }

  /** A string without any decimal digit parses to NaN: even `0x` needs its leading zero. */
  lemma ParseIntNoDigits(s: string)
    requires forall i :: 0 <= i < |s| ==> !IsDigit(s[i])
    ensures ParseInt(s) == NaN
  {
    DropSpacesSuffix(s);
    var t := DropSpaces(s);
    var u := if t != [] && (t[0] == '-' || t[0] == '+') then t[1..] else t;
    if u != [] {
      assert u[0] == s[|s| - |u|];
      assert !IsDigit(u[0]);
    }
    assert DigitPrefix(u, 10) == [];
  }

  /** The filter handed to the store, built up field by field. */
  datatype FlavorWhere = FlavorWhere(
    isDeleted: bool,
    isAvailable: bool,
    brandId: Option<JsInt>,
    tagHas: Option<string>,
    nameContainsInsensitive: Option<string>)

  /** The `where` object of GET /api/flavors for the query parameters `brandId`, `tag`, `search`. */
  method BuildFlavorWhere(brandId: Option<string>, tag: Option<string>, search: Option<string>)
    returns (w: FlavorWhere)
    ensures !w.isDeleted && w.isAvailable
    ensures w.brandId == (if PresentString(brandId) then Some(ParseInt(brandId.value)) else None)
    ensures w.tagHas == (if PresentString(tag) then tag else None)
    ensures w.nameContainsInsensitive == (if PresentString(search) then search else None)
  {
    w := FlavorWhere(false, true, None, None, None);
    if PresentString(brandId) {
      w := w.(brandId := Some(ParseInt(brandId.value)));
    }
    if PresentString(tag) {
      w := w.(tagHas := tag);
    }
    if PresentString(search) {
      w := w.(nameContainsInsensitive := search);
    }
  }

  /** Whether the store returns flavor `f` for filter `w`. */
  predicate MatchesWhere(f: Flavor, w: FlavorWhere) {
    && f.isDeleted == w.isDeleted
    && f.isAvailable == w.isAvailable
    && (w.brandId.Some? ==> w.brandId.value == Num(f.brandId))
    && (w.tagHas.Some? ==> f.flavorProfile.Some? && w.tagHas.value in f.flavorProfile.value)
    && (w.nameContainsInsensitive.Some? ==>
          Includes(Lower(f.name), Lower(w.nameContainsInsensitive.value)))
  }

  /**
   * With a brand id rendered in decimal and no other parameter, exactly the
   * available, non-deleted flavors of that brand match.
   */
  lemma BrandFilterSelectsBrand(f: Flavor, id: int)
    ensures
      var w := FlavorWhere(false, true, Some(ParseInt(IntToDecimal(id))), None, None);
      MatchesWhere(f, w) <==> f.isAvailable && !f.isDeleted && f.brandId == id
  {
    ParseIntRoundTrip(id);
  }
}
