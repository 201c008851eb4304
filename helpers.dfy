/** The formatting helpers of helpers.js: Russian plural forms and label lookups. */
module Helpers {
  import opened Wrappers

  /** JavaScript's `%`: the remainder takes the sign of the dividend. */
  function JsRem(a: int, b: int): (r: int)
    requires b > 0
    ensures a >= 0 ==> r == a % b
    ensures a < 0 ==> -b < r <= 0
    ensures a == JsQuot(a, b) * b + r
  {
    if a >= 0 then a % b else -((-a) % b)
  }

  /** The quotient that goes with `JsRem`: `Math.trunc(a / b)`, rounding toward zero. */
  function JsQuot(a: int, b: int): int
    requires b > 0
  {
    if a >= 0 then a / b else -((-a) / b)
  }

  /** `cases = [2, 0, 1, 1, 1, 2]`. */
  const Cases: seq<nat> := [2, 0, 1, 1, 1, 2]

  /**
   * The index `pluralize` reads from `words`; `None` where the source reads
   * `cases` at a negative index and gets `undefined`.
   */
  function PluralIndex(count: int): (r: Option<nat>)
    ensures count >= 0 ==> r.Some? && r.value <= 2
    ensures r.Some? ==> r.value <= 2
  {
    var r100 := JsRem(count, 100);
    if r100 > 4 && r100 < 20 then Some(2)
    else
      var r10 := JsRem(count, 10);
      var k := if r10 < 5 then r10 else 5;
      if k < 0 then None else Some(Cases[k])
  }

  /** `pluralize(count, words)`: `None` stands for `undefined`. */
  function Pluralize<T>(count: int, words: seq<T>): (r: Option<T>)
    ensures |words| >= 3 && count >= 0 ==> r.Some? && r.value in words[..3]
  {
    match PluralIndex(count)
    case Some(i) => if i < |words| then Some(words[i]) else None
    case None => None
  }

  /** The Russian rules: 5..19 after the hundreds, else by the last digit (1; 2..4; the rest). */
  lemma PluralRules(count: nat)
    ensures 5 <= count % 100 <= 19 ==> PluralIndex(count) == Some(2)
    ensures !(5 <= count % 100 <= 19) && count % 10 == 1 ==> PluralIndex(count) == Some(0)
    ensures !(5 <= count % 100 <= 19) && 2 <= count % 10 <= 4 ==> PluralIndex(count) == Some(1)
    ensures !(5 <= count % 100 <= 19) && (count % 10 == 0 || count % 10 >= 5) ==> PluralIndex(count) == Some(2)
  {
  }

  /** Negative counts: the last form when the count ends in 0, otherwise `undefined`. */
  lemma PluralNegative(count: int)
    requires count < 0
    ensures PluralIndex(count) == (if count % 10 == 0 then Some(2) else None)
  {
    assert JsRem(count, 100) <= 0;
    var r10 := JsRem(count, 10);
    assert r10 == 0 <==> count % 10 == 0;
  }

  const StrengthLabels: map<string, string> := map[
    "LIGHT" := "🌱 Лёгкий",
    "MEDIUM" := "🌿 Средний",
    "STRONG" := "🔥 Крепкий"]

  const TagLabels: map<string, string> := map[
    "SWEET" := "🍬 Сладкий",
    "SOUR" := "🍋 Кислый",
    "FRESH" := "🌿 Свежий",
    "FRUITY" := "🍎 Фруктовый",
    "BERRY" := "🍓 Ягодный",
    "CITRUS" := "🍊 Цитрусовый",
    "MINT" := "🌱 Мятный",
    "ICE" := "❄️ Ледяной",
    "TROPICAL" := "🏝️ Тропический",
    "CREAMY" := "🥛 Сливочный",
    "DESSERT" := "🍰 Десертный",
    "SPICY" := "🌶️ Пряный"]

  /** `map[key] || key`: the label when there is one (all labels are non-empty), else the key. */
  function LabelOr(labels: map<string, string>, key: string): string {
    if key in labels && labels[key] != "" then labels[key] else key
  }

  function FormatStrength(strength: string): (r: string)
    ensures strength in StrengthLabels ==> r == StrengthLabels[strength]
    ensures strength !in StrengthLabels ==> r == strength
  {
    LabelOr(StrengthLabels, strength)
  }

  function FormatTag(tag: string): (r: string)
    ensures tag in TagLabels ==> r == TagLabels[tag]
    ensures tag !in TagLabels ==> r == tag
  {
    LabelOr(TagLabels, tag)
  }

  /** Formatting twice is formatting once: no label is itself a key. */
  lemma FormatIdempotent(strength: string, tag: string)
    ensures FormatStrength(FormatStrength(strength)) == FormatStrength(strength)
    ensures FormatTag(FormatTag(tag)) == FormatTag(tag)
  {
    assert forall k :: k in StrengthLabels ==> StrengthLabels[k] !in StrengthLabels;
    assert forall k :: k in TagLabels ==> TagLabels[k] !in TagLabels;
  }
}
