/**
 * The two writing endpoints of index.js over an in-memory store: creating a
 * mix (POST /api/mixes) and recording a like, dislike or order on it
 * (POST /api/mixes/:id/action).
 *
 * `Store` and the step functions `CreateMixStep` and `RecordActionStep` are
 * the specification; the class `MixService` holds the same state in fields
 * and its methods are proved to perform exactly those steps.
 */
module MixStore {
  import opened Wrappers
  import opened MixRules
  import opened Text

  datatype ActionKind = Like | Dislike | Order

  /** A mix action row; `tableNumber` and `comment` are only filled for orders. */
  datatype ActionRow = ActionRow(
    id: int,
    userId: int,
    mixId: int,
    kind: ActionKind,
    tableNumber: Option<int>,
    comment: Option<string>)

  /** A stored mix with its counters. */
  datatype MixRecord = MixRecord(
    id: int,
    draft: MixDraft,
    likesCount: int,
    dislikesCount: int,
    ordersCount: int)

  /** The body of POST /api/mixes/:id/action; `kind` is the raw `type` string. */
  datatype ActionRequest = ActionRequest(
    userId: Option<int>,
    kind: Option<string>,
    tableNumber: Option<int>,
    comment: Option<string>)

  /** 201 with a record, 400 with the reason, or 500 when the store refuses the write. */
  datatype Reply<T> = Created(value: T) | BadRequest(reason: string) | ServerError

  const MissingFieldsMessage := "Missing required fields"
  const PercentageMessage := "Ingredients percentage must sum to 100"
  const MissingUserOrTypeMessage := "Missing userId or type"

  /** Mixes by id, the action log in insertion order, and the next auto-increment ids. */
  datatype Store = Store(
    mixes: map<int, MixRecord>,
    actions: seq<ActionRow>,
    nextMixId: int,
    nextActionId: int)

  const EmptyStore := Store(map[], [], 1, 1)

  /**
   * What the store keeps true: ids are below the next id, action ids rise
   * strictly along the log (so no two rows share one), every action points
   * at a stored mix (the foreign key), and there is at most one like and at
   * most one dislike row per user and mix (the unique key on user, mix, type).
   */
  ghost predicate Invariant(s: Store) {
    && s.nextMixId >= 1 && s.nextActionId >= 1
    && (forall k :: k in s.mixes ==> s.mixes[k].id == k && 1 <= k < s.nextMixId)
    && (forall i :: 0 <= i < |s.actions| ==>
          s.actions[i].mixId in s.mixes && 1 <= s.actions[i].id < s.nextActionId)
    && (forall i, j :: 0 <= i < j < |s.actions| ==> s.actions[i].id < s.actions[j].id)
    && UniqueReactions(s.actions)
  }

  /** The unique key on (userId, mixId, type) for likes and dislikes. */
  ghost predicate UniqueReactions(rows: seq<ActionRow>) {
    forall i, j :: 0 <= i < j < |rows| && rows[i].kind != Order ==>
      !SameKey(rows[i], rows[j])
  }

  predicate SameKey(a: ActionRow, b: ActionRow) {
    a.userId == b.userId && a.mixId == b.mixId && a.kind == b.kind
  }

  predicate HasKey(r: ActionRow, userId: int, mixId: int, kind: ActionKind) {
    r.userId == userId && r.mixId == mixId && r.kind == kind
  }

  /** The first row with the given key, as the upsert's lookup finds it. */
  function FindRow(rows: seq<ActionRow>, userId: int, mixId: int, kind: ActionKind): (r: Option<nat>)
    ensures r.Some? ==> r.value < |rows| && HasKey(rows[r.value], userId, mixId, kind)
    ensures r.Some? ==> forall j :: 0 <= j < r.value ==> !HasKey(rows[j], userId, mixId, kind)
    ensures r.None? ==> forall j :: 0 <= j < |rows| ==> !HasKey(rows[j], userId, mixId, kind)
  {
    if rows == [] then None
    else if HasKey(rows[0], userId, mixId, kind) then Some(0)
    else
      match FindRow(rows[1..], userId, mixId, kind)
      case None => None
      case Some(k) => Some(k + 1)
  }

  /** The `type` strings the upsert branch accepts. */
  function ReactionKind(t: string): (k: Option<ActionKind>)
    ensures k == Some(Like) <==> t == "LIKE"
    ensures k == Some(Dislike) <==> t == "DISLIKE"
    ensures k.Some? ==> k.value != Order
  {
    if t == "LIKE" then Some(Like) else if t == "DISLIKE" then Some(Dislike) else None
  }

  /** The mix id of the route, when it parses and names a stored mix. */
  predicate KnownMix(s: Store, mixId: JsInt) {
    mixId.Num? && mixId.n in s.mixes
  }

  function BumpOrders(m: MixRecord): MixRecord { m.(ordersCount := m.ordersCount + 1) }

  /** The counter update that follows the upsert: likes for LIKE, dislikes for DISLIKE. */
  function BumpReaction(m: MixRecord, kind: ActionKind): MixRecord {
    match kind
    case Like => m.(likesCount := m.likesCount + 1)
    case Dislike => m.(dislikesCount := m.dislikesCount + 1)
    case Order => m
  }

  /** POST /api/mixes: validate, then store the mix with zero counters under the next id. */
  function CreateMixStep(s: Store, req: CreateMixRequest, now: nat): (out: (Store, Reply<MixRecord>))
    ensures out.1.Created? <==> ValidateCreate(req, now).Accepted?
    ensures !out.1.Created? ==> out.0 == s && out.1.BadRequest?
    ensures out.1.Created? ==>
      out.1.value.id == s.nextMixId && out.0.mixes == s.mixes[s.nextMixId := out.1.value]
      && out.0.actions == s.actions
  {
    match ValidateCreate(req, now)
    case Rejected(MissingRequiredFields) => (s, BadRequest(MissingFieldsMessage))
    case Rejected(PercentageNot100) => (s, BadRequest(PercentageMessage))
    case Accepted(draft) =>
      var m := MixRecord(s.nextMixId, draft, 0, 0, 0);
      (s.(mixes := s.mixes[s.nextMixId := m], nextMixId := s.nextMixId + 1), Created(m))
  }

  /**
   * POST /api/mixes/:id/action as written: an order is always a new row and
   * one more order; a like or dislike is an upsert on its key followed by one
   * more like or dislike, whether or not the upsert inserted anything.
   */
  function RecordActionStep(s: Store, id: string, req: ActionRequest): (out: (Store, Reply<ActionRow>))
    ensures out.1.BadRequest? <==> !PresentId(req.userId) || !PresentString(req.kind)
    ensures !out.1.Created? ==> out.0 == s
    ensures out.1.Created? <==>
      PresentId(req.userId) && PresentString(req.kind) && KnownMix(s, ParseInt(id))
      && (req.kind.value == "ORDER" || ReactionKind(req.kind.value).Some?)
    ensures out.1.Created? ==> out.0.mixes.Keys == s.mixes.Keys && s.actions <= out.0.actions
  {
    if !PresentId(req.userId) || !PresentString(req.kind) then (s, BadRequest(MissingUserOrTypeMessage))
    else
      var mixId := ParseInt(id);
      var userId := req.userId.value;
      if req.kind.value == "ORDER" then
        if !KnownMix(s, mixId) then (s, ServerError)
        else
          var row := ActionRow(s.nextActionId, userId, mixId.n, Order, req.tableNumber, req.comment);
          var s' := s.(actions := s.actions + [row], nextActionId := s.nextActionId + 1);
          (s'.(mixes := s.mixes[mixId.n := BumpOrders(s.mixes[mixId.n])]), Created(row))
      else if ReactionKind(req.kind.value).None? || !KnownMix(s, mixId) then (s, ServerError)
      else
        var kind := ReactionKind(req.kind.value).value;
        var (s', row) := Upsert(s, userId, mixId.n, kind);
        (s'.(mixes := s.mixes[mixId.n := BumpReaction(s.mixes[mixId.n], kind)]), Created(row))
  }

  /** The upsert with an empty update: the existing row, or a new one appended. */
  function Upsert(s: Store, userId: int, mixId: int, kind: ActionKind): (out: (Store, ActionRow))
    ensures HasKey(out.1, userId, mixId, kind)
    ensures out.0.mixes == s.mixes
    ensures out.0.actions == s.actions || out.0.actions == s.actions + [out.1]
    ensures out.0.actions == s.actions <==> exists i :: 0 <= i < |s.actions| && HasKey(s.actions[i], userId, mixId, kind)
  {
    match FindRow(s.actions, userId, mixId, kind)
    case Some(i) => (s, s.actions[i])
    case None =>
      var row := ActionRow(s.nextActionId, userId, mixId, kind, None, None);
      (s.(actions := s.actions + [row], nextActionId := s.nextActionId + 1), row)
  }

  // ---------------------------------------------------------------------------
  // Properties of the endpoints
  // ---------------------------------------------------------------------------

  /** An empty store satisfies the invariant. */
  lemma EmptyStoreValid()
    ensures Invariant(EmptyStore)
  {
  }

  /** Creating a mix keeps the invariant. */
  lemma CreateMixKeepsInvariant(s: Store, req: CreateMixRequest, now: nat)
    requires Invariant(s)
    ensures Invariant(CreateMixStep(s, req, now).0)
  {
  }

  /**
   * A rejected creation answers 400 and leaves the store as it was; an
   * accepted one adds exactly one mix, with zero counters, and no action.
   */
  lemma CreateMixOutcome(s: Store, req: CreateMixRequest, now: nat)
    requires Invariant(s)
    ensures var (s', reply) := CreateMixStep(s, req, now);
      && (reply.BadRequest? <==> !HasRequiredFields(req) || PercentSum(req.ingredients.value) != 100)
      && (reply.BadRequest? ==> s' == s)
      && (reply.Created? ==>
            && s.nextMixId !in s.mixes
            && s'.mixes == s.mixes[s.nextMixId := reply.value]
            && s'.actions == s.actions
            && reply.value.likesCount == 0 && reply.value.dislikesCount == 0
            && reply.value.ordersCount == 0
            && reply.value.draft == ValidateCreate(req, now).draft)
  {
  }

  /** An action request without a user id or a type answers 400 and changes nothing. */
  lemma ActionMissingFieldsRejected(s: Store, id: string, req: ActionRequest)
    requires !PresentId(req.userId) || !PresentString(req.kind)
    ensures RecordActionStep(s, id, req) == (s, BadRequest(MissingUserOrTypeMessage))
  {
  }

  /**
   * An order on a stored mix appends exactly one row, raises `ordersCount` by
   * one and touches no other counter and no other mix.
   */
  lemma OrderAppendsOneRow(s: Store, id: string, req: ActionRequest)
    requires PresentId(req.userId) && req.kind == Some("ORDER")
    requires KnownMix(s, ParseInt(id))
    ensures var (s', reply) := RecordActionStep(s, id, req);
      var k := ParseInt(id).n;
      && reply.Created?
      && s'.actions == s.actions + [reply.value]
      && reply.value.kind == Order && reply.value.mixId == k
      && reply.value.userId == req.userId.value && reply.value.tableNumber == req.tableNumber
      && s'.mixes.Keys == s.mixes.Keys
      && s'.mixes[k].ordersCount == s.mixes[k].ordersCount + 1
      && s'.mixes[k].likesCount == s.mixes[k].likesCount
      && s'.mixes[k].dislikesCount == s.mixes[k].dislikesCount
      && (forall j :: j in s.mixes && j != k ==> s'.mixes[j] == s.mixes[j])
  {
  }

  /** Orders are never deduplicated: the same order twice gives two rows and two more orders. */
  lemma RepeatedOrdersAccumulate(s: Store, id: string, req: ActionRequest)
    requires PresentId(req.userId) && req.kind == Some("ORDER")
    requires KnownMix(s, ParseInt(id))
    ensures var (s1, r1) := RecordActionStep(s, id, req);
      var (s2, r2) := RecordActionStep(s1, id, req);
      var k := ParseInt(id).n;
      && |s2.actions| == |s.actions| + 2
      && r1.Created? && r2.Created? && r1.value != r2.value
      && s2.mixes[k].ordersCount == s.mixes[k].ordersCount + 2
  {
    OrderAppendsOneRow(s, id, req);
    var (s1, r1) := RecordActionStep(s, id, req);
    OrderAppendsOneRow(s1, id, req);
  }

  /**
   * A like or dislike on a stored mix returns the row with its key, adds a
   * row only when none had that key, and raises exactly its own counter by
   * one, on every call.
   */
  lemma ReactionBumpsItsCounter(s: Store, id: string, req: ActionRequest)
    requires Invariant(s)
    requires PresentId(req.userId) && req.kind.Some? && ReactionKind(req.kind.value).Some?
    requires KnownMix(s, ParseInt(id))
    ensures var (s', reply) := RecordActionStep(s, id, req);
      var k := ParseInt(id).n;
      var kind := ReactionKind(req.kind.value).value;
      var existing := FindRow(s.actions, req.userId.value, k, kind);
      && reply.Created?
      && HasKey(reply.value, req.userId.value, k, kind)
      && (existing.Some? ==> s'.actions == s.actions && reply.value == s.actions[existing.value])
      && (existing.None? ==> s'.actions == s.actions + [reply.value])
      && s'.mixes.Keys == s.mixes.Keys
      && s'.mixes[k].likesCount == s.mixes[k].likesCount + (if kind == Like then 1 else 0)
      && s'.mixes[k].dislikesCount == s.mixes[k].dislikesCount + (if kind == Dislike then 1 else 0)
      && s'.mixes[k].ordersCount == s.mixes[k].ordersCount
      && (forall j :: j in s.mixes && j != k ==> s'.mixes[j] == s.mixes[j])
  {
  }

  /** Recording an action keeps the invariant; in particular likes and dislikes stay unique per key. */
  lemma RecordActionKeepsInvariant(s: Store, id: string, req: ActionRequest)
    requires Invariant(s)
    ensures Invariant(RecordActionStep(s, id, req).0)
  {
    var (s', reply) := RecordActionStep(s, id, req);
    if reply.Created? && req.kind.value != "ORDER" {
      var kind := ReactionKind(req.kind.value).value;
      var k := ParseInt(id).n;
      var userId := req.userId.value;
      if FindRow(s.actions, userId, k, kind).None? {
        var rows := s'.actions;
        forall i, j | 0 <= i < j < |rows| && rows[i].kind != Order
          ensures !SameKey(rows[i], rows[j])
        {
          if j == |rows| - 1 {
            assert !HasKey(s.actions[i], userId, k, kind);
          }
        }
      }
    }
  }

  // ---------------------------------------------------------------------------
  // The like counter can run ahead of the likes
  // ---------------------------------------------------------------------------

  /** The number of rows of a kind for a mix. */
  function CountRows(rows: seq<ActionRow>, mixId: int, kind: ActionKind): (n: nat)
    ensures n <= |rows|
  {
    if rows == [] then 0
    else
      var last := rows[|rows| - 1];
      CountRows(rows[..|rows| - 1], mixId, kind) + (if last.mixId == mixId && last.kind == kind then 1 else 0)
  }

  /** Every counter of every mix equals the number of its rows of that kind. */
  ghost predicate CountersExact(s: Store) {
    forall k :: k in s.mixes ==>
      && s.mixes[k].likesCount == CountRows(s.actions, k, Like)
      && s.mixes[k].dislikesCount == CountRows(s.actions, k, Dislike)
      && s.mixes[k].ordersCount == CountRows(s.actions, k, Order)
  }

  /**
   * The same user liking the same mix twice leaves one LIKE row and a like
   * count of two: the counter is bumped even when the upsert found the row.
   */
  lemma RepeatLikeOvercounts()
    ensures
      var draft := MixDraft("Mint", "mint-0", None, 7, "MEDIUM", [IngredientRow(1, 100)]);
      var s := Store(map[1 := MixRecord(1, draft, 0, 0, 0)], [], 2, 1);
      var like := ActionRequest(Some(42), Some("LIKE"), None, None);
      var (s1, _) := RecordActionStep(s, "1", like);
      var (s2, _) := RecordActionStep(s1, "1", like);
      && CountersExact(s)
      && s2.mixes[1].likesCount == 2
      && CountRows(s2.actions, 1, Like) == 1
      && !CountersExact(s2)
  {
    ParseIntRoundTrip(1);
    assert IntToDecimal(1) == "1";
    var draft := MixDraft("Mint", "mint-0", None, 7, "MEDIUM", [IngredientRow(1, 100)]);
    var s := Store(map[1 := MixRecord(1, draft, 0, 0, 0)], [], 2, 1);
    var like := ActionRequest(Some(42), Some("LIKE"), None, None);
    var (s1, _) := RecordActionStep(s, "1", like);
    assert s1.actions == [ActionRow(1, 42, 1, Like, None, None)];
    var (s2, _) := RecordActionStep(s1, "1", like);
    assert s2.actions == s1.actions;
    assert CountRows(s2.actions, 1, Like) == CountRows([], 1, Like) + 1;
  }

  /** The evidently intended step: a like or dislike is counted only when its row is new. */
  function RecordActionCorrected(s: Store, id: string, req: ActionRequest): (out: (Store, Reply<ActionRow>))
    ensures out.1 == RecordActionStep(s, id, req).1
    ensures out.0.actions == RecordActionStep(s, id, req).0.actions
    ensures out.0.mixes.Keys == RecordActionStep(s, id, req).0.mixes.Keys
  {
    if !PresentId(req.userId) || !PresentString(req.kind) then (s, BadRequest(MissingUserOrTypeMessage))
    else if req.kind.value == "ORDER" then RecordActionStep(s, id, req)
    else
      var mixId := ParseInt(id);
      if ReactionKind(req.kind.value).None? || !KnownMix(s, mixId) then (s, ServerError)
      else
        var kind := ReactionKind(req.kind.value).value;
        var (s', row) := Upsert(s, req.userId.value, mixId.n, kind);
        var isNew := FindRow(s.actions, req.userId.value, mixId.n, kind).None?;
        var m := s.mixes[mixId.n];
        (s'.(mixes := s.mixes[mixId.n := if isNew then BumpReaction(m, kind) else m]), Created(row))
  }

  lemma CountRowsAppend(rows: seq<ActionRow>, r: ActionRow, mixId: int, kind: ActionKind)
    ensures CountRows(rows + [r], mixId, kind) ==
      CountRows(rows, mixId, kind) + (if r.mixId == mixId && r.kind == kind then 1 else 0)
  {
    assert (rows + [r])[..|rows|] == rows;
  }

  /** With the correction every counter stays equal to the number of its rows. */
  lemma CorrectedKeepsCountersExact(s: Store, id: string, req: ActionRequest)
    requires Invariant(s) && CountersExact(s)
    ensures CountersExact(RecordActionCorrected(s, id, req).0)
  {
    var (s', reply) := RecordActionCorrected(s, id, req);
    if reply.Created? {
      var k := ParseInt(id).n;
      if s'.actions != s.actions {
        var r := s'.actions[|s'.actions| - 1];
        assert s'.actions == s.actions + [r];
        forall j, kind | j in s'.mixes
          ensures CountRows(s'.actions, j, kind) ==
            CountRows(s.actions, j, kind) + (if j == k && r.kind == kind then 1 else 0)
        {
          CountRowsAppend(s.actions, r, j, kind);
        }
      }
    }
  }

  /** Creating a mix also keeps the counters exact: a new mix has no rows yet. */
  lemma CreateMixKeepsCountersExact(s: Store, req: CreateMixRequest, now: nat)
    requires Invariant(s) && CountersExact(s)
    ensures CountersExact(CreateMixStep(s, req, now).0)
  {
    var (s', reply) := CreateMixStep(s, req, now);
    if reply.Created? {
      forall kind: ActionKind ensures CountRows(s.actions, s.nextMixId, kind) == 0 {
        CountRowsAbsent(s.actions, s.nextMixId, kind);
      }
    }
  }

  lemma {:induction false} CountRowsAbsent(rows: seq<ActionRow>, mixId: int, kind: ActionKind)
    requires forall i :: 0 <= i < |rows| ==> rows[i].mixId != mixId
    ensures CountRows(rows, mixId, kind) == 0
    decreases |rows|
  {
    if rows != [] {
      CountRowsAbsent(rows[..|rows| - 1], mixId, kind);
    }
  }

  // ---------------------------------------------------------------------------
  // The store as an object
  // ---------------------------------------------------------------------------

  class MixService {
    var mixes: map<int, MixRecord>
    var actions: seq<ActionRow>
    var nextMixId: int
    var nextActionId: int

    function State(): Store
      reads this
    {
      Store(mixes, actions, nextMixId, nextActionId)
    }

    ghost predicate Valid()
      reads this
    {
      Invariant(State())
    }

    constructor ()
      ensures Valid() && State() == EmptyStore
    {
      mixes := map[];
      actions := [];
      nextMixId := 1;
      nextActionId := 1;
    }

    /** The upsert's lookup: the position of the first row with the key. */
    method FindAction(userId: int, mixId: int, kind: ActionKind) returns (found: Option<nat>)
      ensures found == FindRow(actions, userId, mixId, kind)
    {
      var i := 0;
      while i < |actions|
        invariant 0 <= i <= |actions|
        invariant forall j :: 0 <= j < i ==> !HasKey(actions[j], userId, mixId, kind)
      {
        if HasKey(actions[i], userId, mixId, kind) {
          FindRowFirst(actions, userId, mixId, kind, i);
          return Some(i);
        }
        i := i + 1;
      }
      FindRowNone(actions, userId, mixId, kind);
      return None;
    }

    method CreateMix(req: CreateMixRequest, now: nat) returns (reply: Reply<MixRecord>)
      requires Valid()
      modifies this
      ensures Valid()
      ensures (State(), reply) == CreateMixStep(old(State()), req, now)
    {
      CreateMixKeepsInvariant(State(), req, now);
      var checked := ValidateCreate(req, now);
      match checked
      case Rejected(MissingRequiredFields) =>
        reply := BadRequest(MissingFieldsMessage);
      case Rejected(PercentageNot100) =>
        reply := BadRequest(PercentageMessage);
      case Accepted(draft) =>
        var m := MixRecord(nextMixId, draft, 0, 0, 0);
        mixes := mixes[nextMixId := m];
        nextMixId := nextMixId + 1;
        reply := Created(m);
    }

    method RecordAction(id: string, req: ActionRequest) returns (reply: Reply<ActionRow>)
      requires Valid()
      modifies this
      ensures Valid()
      ensures (State(), reply) == RecordActionStep(old(State()), id, req)
    {
      RecordActionKeepsInvariant(State(), id, req);
      if !PresentId(req.userId) || !PresentString(req.kind) {
        return BadRequest(MissingUserOrTypeMessage);
      }
      var mixId := ParseInt(id);
      var userId := req.userId.value;
      if req.kind.value == "ORDER" {
        if !(mixId.Num? && mixId.n in mixes) {
          return ServerError;
        }
        var row := ActionRow(nextActionId, userId, mixId.n, Order, req.tableNumber, req.comment);
        actions := actions + [row];
        nextActionId := nextActionId + 1;
        mixes := mixes[mixId.n := BumpOrders(mixes[mixId.n])];
        return Created(row);
      }
      var kind := ReactionKind(req.kind.value);
      if kind.None? || !(mixId.Num? && mixId.n in mixes) {
        return ServerError;
      }
      var found := FindAction(userId, mixId.n, kind.value);
      var row;
      if found.Some? {
        row := actions[found.value];
      } else {
        row := ActionRow(nextActionId, userId, mixId.n, kind.value, None, None);
        actions := actions + [row];
        nextActionId := nextActionId + 1;
      }
      mixes := mixes[mixId.n := BumpReaction(mixes[mixId.n], kind.value)];
      reply := Created(row);
    }
  }

  lemma {:induction false} FindRowFirst(rows: seq<ActionRow>, userId: int, mixId: int, kind: ActionKind, i: nat)
    requires i < |rows| && HasKey(rows[i], userId, mixId, kind)
    requires forall j :: 0 <= j < i ==> !HasKey(rows[j], userId, mixId, kind)
    ensures FindRow(rows, userId, mixId, kind) == Some(i)
  {
  }

  lemma FindRowNone(rows: seq<ActionRow>, userId: int, mixId: int, kind: ActionKind)
    requires forall j :: 0 <= j < |rows| ==> !HasKey(rows[j], userId, mixId, kind)
    ensures FindRow(rows, userId, mixId, kind) == None
  {
  }
}
