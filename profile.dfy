/** The profile page of Profile.jsx: the name shown, the activity counts and the recent activity. */
module Profile {
  import opened Wrappers
  import opened Text

  /** One of the user's actions as returned by GET /api/users/:id/actions. */
  datatype Activity = Activity(kind: string, mixName: Option<string>, tableNumber: Option<int>)

  /** The stored user, as GET /api/users/:id returns it. */
  datatype UserRecord = UserRecord(firstName: Option<string>, username: Option<string>, mixes: Option<seq<int>>)

  /** The Telegram user of the Web App session. */
  datatype TelegramUser = TelegramUser(firstName: Option<string>, username: Option<string>)

  datatype Stats = Stats(likes: nat, orders: nat, mixes: nat)

  /** `actions.filter(a => a.type === kind).length`. */
  function CountKind(actions: seq<Activity>, kind: string): (n: nat)
    ensures n <= |actions|
  {
    if actions == [] then 0
    else CountKind(actions[..|actions| - 1], kind) + (if actions[|actions| - 1].kind == kind then 1 else 0)
  }

  /** `stats`: likes, orders and authored mixes, each 0 when the data is absent. */
  function StatsOf(actions: Option<seq<Activity>>, user: Option<UserRecord>): (st: Stats)
    ensures actions.None? ==> st.likes == 0 && st.orders == 0
    ensures actions.Some? ==> st.likes + st.orders <= |actions.value|
    ensures actions.Some? ==>
      st.likes == CountKind(actions.value, "LIKE") && st.orders == CountKind(actions.value, "ORDER")
    ensures user.None? || user.value.mixes.None? ==> st.mixes == 0
    ensures user.Some? && user.value.mixes.Some? ==> st.mixes == |user.value.mixes.value|
  {
    var st := Stats(
      if actions.Some? then CountKind(actions.value, "LIKE") else 0,
      if actions.Some? then CountKind(actions.value, "ORDER") else 0,
      if user.Some? && user.value.mixes.Some? then |user.value.mixes.value| else 0);
    if actions.Some? then (TwoKindsBounded(actions.value, "LIKE", "ORDER"); st) else st
  }

  /** Two different kinds never count one action twice. */
  lemma {:induction false} TwoKindsBounded(actions: seq<Activity>, k1: string, k2: string)
    requires k1 != k2
    ensures CountKind(actions, k1) + CountKind(actions, k2) <= |actions|
    decreases |actions|
  {
    if actions != [] {
      TwoKindsBounded(actions[..|actions| - 1], k1, k2);
    }
  }

  /** The counts of an appended action grow by one for its own kind only. */
  lemma CountKindAppend(actions: seq<Activity>, a: Activity, kind: string)
    ensures CountKind(actions + [a], kind) == CountKind(actions, kind) + (if a.kind == kind then 1 else 0)
  {
    assert (actions + [a])[..|actions|] == actions;
  }

  /** `actions.slice(0, 5)`: the first five actions, in order. */
  function Recent(actions: Option<seq<Activity>>): (r: seq<Activity>)
    ensures actions.None? ==> r == []
    ensures actions.Some? ==> r <= actions.value && |r| == if |actions.value| < 5 then |actions.value| else 5
  {
    match actions
    case None => []
    case Some(s) => if |s| <= 5 then s else s[..5]
  }

  predicate Truthy(s: Option<string>) { s.Some? && s.value != "" }

  /** `tgUser?.first_name || user?.firstName || 'Гость'`. */
  function DisplayName(tg: Option<TelegramUser>, user: Option<UserRecord>): (name: string)
    ensures name != ""
    ensures tg.Some? && Truthy(tg.value.firstName) ==> name == tg.value.firstName.value
    ensures !(tg.Some? && Truthy(tg.value.firstName)) && user.Some? && Truthy(user.value.firstName) ==>
      name == user.value.firstName.value
    ensures !(tg.Some? && Truthy(tg.value.firstName)) && !(user.Some? && Truthy(user.value.firstName)) ==>
      name == "Гость"
  {
    if tg.Some? && Truthy(tg.value.firstName) then tg.value.firstName.value
    else if user.Some? && Truthy(user.value.firstName) then user.value.firstName.value
    else "Гость"
  }

  /** `tgUser?.username || user?.username`: shown as `@name` only when some username is non-empty. */
  function Username(tg: Option<TelegramUser>, user: Option<UserRecord>): (r: Option<string>)
    ensures r.Some? ==> r.value != ""
    ensures r.None? <==> !(tg.Some? && Truthy(tg.value.username)) && !(user.Some? && Truthy(user.value.username))
    ensures tg.Some? && Truthy(tg.value.username) ==> r == tg.value.username
    ensures !(tg.Some? && Truthy(tg.value.username)) && user.Some? && Truthy(user.value.username) ==>
      r == user.value.username
  {
    if tg.Some? && Truthy(tg.value.username) then tg.value.username
    else if user.Some? && Truthy(user.value.username) then user.value.username
    else None
  }

  /** `action.mix?.name || 'Микс'`. */
  function ActivityTitle(a: Activity): (s: string)
    ensures s != ""
    ensures Truthy(a.mixName) ==> s == a.mixName.value
  {
    if Truthy(a.mixName) then a.mixName.value else "Микс"
  }

  /** The order caption: the table number, or a dash when it is missing (or 0). */
  function OrderCaption(tableNumber: Option<int>): (s: string)
    ensures tableNumber.Some? && tableNumber.value != 0 ==> s == "Заказ на стол " + IntToDecimal(tableNumber.value)
    ensures !(tableNumber.Some? && tableNumber.value != 0) ==> s == "Заказ на стол —"
  {
    "Заказ на стол " + (if tableNumber.Some? && tableNumber.value != 0 then IntToDecimal(tableNumber.value) else "—")
  }

  /** The caption under an action, by its type; nothing for an unknown type. */
  function ActivityCaption(a: Activity): (s: string)
    ensures s == "" <==> a.kind != "LIKE" && a.kind != "DISLIKE" && a.kind != "ORDER"
  {
    if a.kind == "LIKE" then "Понравилось"
    else if a.kind == "DISLIKE" then "Не понравилось"
    else if a.kind == "ORDER" then OrderCaption(a.tableNumber)
    else ""
  }

  /** The caption of an order always names a table or the dash, never the like captions. */
  lemma OrderCaptionShape(a: Activity)
    requires a.kind == "ORDER"
    ensures |ActivityCaption(a)| > |"Заказ на стол "|
    ensures ActivityCaption(a)[..|"Заказ на стол "|] == "Заказ на стол "
  {
  }
}
