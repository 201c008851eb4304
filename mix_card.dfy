/** The mix tile of MixCard.jsx: strength badge, ingredient chips, rating, orders and author. */
module MixCard {
  import opened Wrappers
  import opened Text
  import opened MixRules
  import opened MixStore

  datatype StrengthStyle = StrengthStyle(caption: string, color: string)

  const StrengthConfig: map<string, StrengthStyle> := map[
    "LIGHT" := StrengthStyle("Лёгкий", "green"),
    "MEDIUM" := StrengthStyle("Средний", "orange"),
    "STRONG" := StrengthStyle("Крепкий", "red")]

  /** One ingredient as the card receives it: the joined flavor's name and the percentage. */
  datatype Chip = Chip(flavorName: Option<string>, percentage: int)

  datatype Author = Author(firstName: Option<string>)

  /** The `mix` prop, with the fields the card reads. */
  datatype CardMix = CardMix(
    userStrength: string,
    likesCount: int,
    dislikesCount: int,
    ordersCount: Option<int>,
    ingredients: Option<seq<Chip>>,
    author: Option<Author>)

  /** The badge: the strength's own style, the medium style for any other value. */
  function StrengthStyleFor(userStrength: string): (r: StrengthStyle)
    ensures userStrength in StrengthConfig ==> r == StrengthConfig[userStrength]
    ensures userStrength !in StrengthConfig ==> r == StrengthStyle("Средний", "orange")
  {
    if userStrength in StrengthConfig then StrengthConfig[userStrength] else StrengthConfig["MEDIUM"]
  }

  /** `rating`: likes less dislikes; the heart is lit exactly when likes outnumber dislikes. */
  function Rating(likesCount: int, dislikesCount: int): (r: int)
    ensures r > 0 <==> likesCount > dislikesCount
    ensures r == 0 <==> likesCount == dislikesCount
  {
    likesCount - dislikesCount
  }

  /** The rating as shown: a plus sign before a positive rating, the plain number otherwise. */
  function RatingLabel(r: int): (s: string)
    ensures |s| >= 1
    ensures s[0] == '+' <==> r > 0
    ensures s[0] == '-' <==> r < 0
    ensures r == 0 <==> s == "0"
  {
    if r > 0 then "+" + NatToDecimal(r) else IntToDecimal(r)
  }

  /** Reading a rating label back. */
  function ReadRatingLabel(s: string): int
    requires |s| >= 1 && AllDigits(s[1..])
    requires s[0] == '+' || s[0] == '-' || '0' <= s[0] <= '9'
  {
    if s[0] == '+' then DecimalValue(s[1..])
    else if s[0] == '-' then -(DecimalValue(s[1..]) as int)
    else DecimalValue(s)
  }

  /** The label determines the rating. */
  lemma RatingLabelRoundTrip(r: int)
    ensures var s := RatingLabel(r);
      |s| >= 1 && AllDigits(s[1..]) && (s[0] == '+' || s[0] == '-' || '0' <= s[0] <= '9')
      && ReadRatingLabel(s) == r
  {
    var m: nat := if r < 0 then -r else r;
    DecimalRoundTrip(m);
    var s := RatingLabel(r);
    if r > 0 {
      assert s[1..] == NatToDecimal(m);
    } else if r == 0 {
      assert s == NatToDecimal(0);
    }
  }

  /** `mix.ingredients?.slice(0, 3)`. */
  function Chips(ings: Option<seq<Chip>>): (r: seq<Chip>)
    ensures ings.None? ==> r == []
    ensures ings.Some? ==> r <= ings.value && |r| == if |ings.value| < 3 then |ings.value| else 3
  {
    match ings
    case None => []
    case Some(s) => if |s| <= 3 then s else s[..3]
  }

  /** The `+N` badge, shown when there are more than three ingredients. */
  function Overflow(ings: Option<seq<Chip>>): (r: Option<nat>)
    ensures r.Some? <==> ings.Some? && |ings.value| > 3
    ensures r.Some? ==> r.value >= 1 && r.value + 3 == |ings.value|
  {
    if ings.Some? && |ings.value| > 3 then Some(|ings.value| - 3) else None
  }

  /** Chips are the first ingredients in order, at most three; with the badge they account for all. */
  lemma ChipsAndOverflow(ings: seq<Chip>)
    ensures |Chips(Some(ings))| <= 3
    ensures Chips(Some(ings)) <= ings
    ensures Overflow(Some(ings)).Some? <==> |ings| > 3
    ensures |Chips(Some(ings))| + Overflow(Some(ings)).GetOr(0) == |ings|
    ensures |ings| > 3 ==> |Chips(Some(ings))| == 3 && Overflow(Some(ings)) == Some(|ings| - 3)
    ensures |ings| <= 3 ==> Chips(Some(ings)) == ings && Overflow(Some(ings)) == None
  {
  }

  /** A chip: the flavor name or 'Вкус', a middle dot, the percentage and '%'. */
  function ChipText(c: Chip): (s: string)
    ensures c.flavorName.Some? && c.flavorName.value != "" ==> c.flavorName.value + " · " <= s
    ensures !(c.flavorName.Some? && c.flavorName.value != "") ==> "Вкус · " <= s
    ensures |s| >= 2 && s[|s| - 1] == '%' && '0' <= s[|s| - 2] <= '9'
  {
    var name := if c.flavorName.Some? && c.flavorName.value != "" then c.flavorName.value else "Вкус";
    name + " · " + IntToDecimal(c.percentage) + "%"
  }

  /** `mix.ordersCount || 0`. */
  function OrdersShown(m: CardMix): (n: int)
    ensures n == m.ordersCount.GetOr(0)
  {
    if m.ordersCount.Some? && m.ordersCount.value != 0 then m.ordersCount.value else 0
  }

  /** `mix.author?.firstName || 'Аноним'`. */
  function AuthorShown(m: CardMix): (s: string)
    ensures s != ""
    ensures m.author.Some? && m.author.value.firstName.Some? && m.author.value.firstName.value != "" ==>
      s == m.author.value.firstName.value
  {
    if m.author.Some? && m.author.value.firstName.Some? && m.author.value.firstName.value != ""
    then m.author.value.firstName.value
    else "Аноним"
  }

  /**
   * Every accepted like raises the shown rating by one and every dislike
   * lowers it by one, repeats included; orders leave it alone.
   */
  lemma ActionMovesRating(s: Store, id: string, req: ActionRequest)
    requires Invariant(s)
    requires PresentId(req.userId) && req.kind.Some?
    requires KnownMix(s, ParseInt(id))
    requires req.kind.value == "ORDER" || ReactionKind(req.kind.value).Some?
    ensures var k := ParseInt(id).n;
      var s' := RecordActionStep(s, id, req).0;
      k in s'.mixes &&
      Rating(s'.mixes[k].likesCount, s'.mixes[k].dislikesCount)
        == Rating(s.mixes[k].likesCount, s.mixes[k].dislikesCount)
        + (if req.kind.value == "LIKE" then 1 else if req.kind.value == "DISLIKE" then -1 else 0)
  {
    if req.kind.value == "ORDER" {
      OrderAppendsOneRow(s, id, req);
    } else {
      ReactionBumpsItsCounter(s, id, req);
    }
  }
}
