/**
Where credentials go in a request: planning the slots, checking the public
request against them, and putting the materials in.

Header-name parsing, header-value validity and base64 belong to libraries; they
are parameters.
*/
module AuthPlacementPlans {
  import opened Prelude
  import opened CredentialSlots
  import opened AuthRejection

  datatype Http = Http(
    parseHeaderName: string -> Option<string>, validHeaderValue: string -> bool, base64: string -> string)

  datatype PlannedPlacement = PlannedBearer | PlannedHeader(name: string) | PlannedQuery(name: string) | PlannedBasic

  datatype PlannedSlot = PlannedSlot(
    id: nat, credential: string, usage: string, step: Option<string>, provenance: string, placement: PlannedPlacement)

  datatype PlacementPlan = PlacementPlan(slots: seq<PlannedSlot>, sensitiveQueryKeys: seq<string>)

  datatype Material =
    | SecretMaterial(slotId: nat, secret: string)
    | BasicMaterial(slotId: nat, username: string, password: string)

  datatype PreparedCredential = PreparedCredential(applied: AppliedCredential, material: Material)

  /** Request headers by name, and the query as a list of pairs. */
  datatype Message = Message(headers: map<string, seq<string>>, query: seq<(string, string)>)

  const AUTHORIZATION := "authorization"

  // ----- header ownership

  predicate IsForbiddenAuthPlacement(name: string) {
    || name in {"content-length", "transfer-encoding", "accept-encoding", "host", "connection",
                "proxy-authorization", "cookie", "set-cookie", "keep-alive", "proxy-connection", "te", "trailer",
                "upgrade", "proxy-authenticate", "www-authenticate"}
    || name in {"content-type", "user-agent", AUTHORIZATION}
    || name in {"idempotency-key", "request-id", "request-idempotency-key", "x-request-id",
                "x-request-idempotency-key", "x-correlation-id", "correlation-id"}
  }

  function LowerChar(c: char): char {
    if 'A' <= c <= 'Z' then (c as int + 32) as char else c
  }

  function AsciiLower(s: string): string {
    seq(|s|, i requires 0 <= i < |s| => LowerChar(s[i]))
  }

  // ----- planning

  predicate Collide(a: PlannedPlacement, b: PlannedPlacement) {
    match (a, b)
    case (PlannedHeader(x), PlannedHeader(y)) => x == y
    case (PlannedQuery(x), PlannedQuery(y)) => x == y
    case (PlannedQuery(_), _) => false
    case (_, PlannedQuery(_)) => false
    case (PlannedHeader(x), _) => x == AUTHORIZATION
    case (_, PlannedHeader(y)) => y == AUTHORIZATION
    case _ => true
  }

  /** The place in the request a slot writes to. */
  datatype Target = HeaderTarget(name: string) | QueryTarget(name: string)

  function TargetOf(p: PlannedPlacement): Target {
    match p
    case PlannedBearer => HeaderTarget(AUTHORIZATION)
    case PlannedBasic => HeaderTarget(AUTHORIZATION)
    case PlannedHeader(name) => HeaderTarget(name)
    case PlannedQuery(name) => QueryTarget(name)
  }

  /** Two placements collide exactly when they write to the same place. */
  lemma CollideIffSameTarget(a: PlannedPlacement, b: PlannedPlacement)
    ensures Collide(a, b) <==> TargetOf(a) == TargetOf(b)
  {
  }

  /** A planning result and the slot-id counter it leaves behind. */
  datatype Planned = Planned(result: Result<PlacementPlan, AuthError>, nextId: nat)

  function ConfigurationError(message: string): AuthError {
    NewError(InvalidConfiguration, message)
  }

  function PlanPlacement(http: Http, p: AuthPlacement): Result<PlannedPlacement, AuthError> {
    match p
    case BearerAuth => Ok(PlannedBearer)
    case BasicAuth => Ok(PlannedBasic)
    case QueryAuth(name) => Ok(PlannedQuery(name))
    case HeaderAuth(name) =>
      match http.parseHeaderName(name)
      case None => Err(ConfigurationError("invalid auth header name"))
      case Some(parsed) => Ok(PlannedHeader(parsed))
  }

  predicate Covers(keys: seq<string>, name: string) {
    exists i :: 0 <= i < |keys| && AsciiLower(keys[i]) == AsciiLower(name)
  }

  predicate AnyCollides(slots: seq<PlannedSlot>, p: PlannedPlacement) {
    exists i :: 0 <= i < |slots| && Collide(slots[i].placement, p)
  }

  /** The slot-id counter when this plan draws from it, after other plans took `others` ids. */
  function Drawn(nextId: nat, others: nat): nat {
    Min(nextId + others, U64_MAX)
  }

  function PlanOne(http: Http, plan: PlacementPlan, requirement: AuthRequirement, nextId: nat, others: nat): Planned {
    match PlanPlacement(http, requirement.placement)
    case Err(e) => Planned(Err(e), nextId)
    case Ok(placement) =>
      if placement.PlannedHeader? && IsForbiddenAuthPlacement(placement.name) then
        Planned(Err(ConfigurationError("authentication may not own reserved header")), nextId)
      else if AnyCollides(plan.slots, placement) then
        Planned(Err(ConfigurationError("duplicate authentication placement target")), nextId)
      else if Drawn(nextId, others) >= U64_MAX then
        Planned(Err(ConfigurationError("auth slot id counter overflowed")), Drawn(nextId, others))
      else
        var id, keys := Drawn(nextId, others), plan.sensitiveQueryKeys;
        Planned(Ok(PlacementPlan(
                     plan.slots + [PlannedSlot(id, requirement.credential, requirement.usage, requirement.step,
                                               requirement.provenance, placement)],
                     if placement.PlannedQuery? && !Covers(keys, placement.name)
                     then keys + [placement.name] else keys)),
                id + 1)
  }

  /** The counter is process-wide: `others(k)` ids go to other plans just before the draw for requirement `k`. */
  function PlanAll(http: Http, requirements: seq<AuthRequirement>, nextId: nat, others: nat -> nat): Planned {
    if requirements == [] then Planned(Ok(PlacementPlan([], [])), nextId)
    else
      var last := |requirements| - 1;
      var before := PlanAll(http, requirements[..last], nextId, others);
      match before.result
      case Err(_) => before
      case Ok(plan) => PlanOne(http, plan, requirements[last], before.nextId, others(last))
  }

  /** The process-wide counter behind slot ids. */
  class AuthSlotIds {
    var next: nat

    constructor ()
      ensures next == 1
    {
      next := 1;
    }

    method Next() returns (r: Result<nat, AuthError>)
      modifies this
      ensures old(next) < U64_MAX ==> r == Ok(old(next)) && next == old(next) + 1
      ensures old(next) >= U64_MAX ==>
                r == Err(ConfigurationError("auth slot id counter overflowed")) && next == old(next)
    {
      if next >= U64_MAX {
        return Err(ConfigurationError("auth slot id counter overflowed"));
      }
      r := Ok(next);
      next := next + 1;
    }

    /** Draws of other plans. */
    method DrawnByOthers(count: nat)
      modifies this
      ensures next == Drawn(old(next), count)
    {
      next := if next + count <= U64_MAX then next + count else U64_MAX;
    }
  }

  lemma {:induction false} PlanningStops(http: Http, requirements: seq<AuthRequirement>, nextId: nat,
                                         others: nat -> nat, k: nat)
    requires k <= |requirements| && PlanAll(http, requirements[..k], nextId, others).result.Err?
    ensures PlanAll(http, requirements, nextId, others) == PlanAll(http, requirements[..k], nextId, others)
    decreases |requirements|
  {
    if k == |requirements| {
      assert requirements[..k] == requirements;
    } else {
      var init := requirements[..|requirements| - 1];
      assert init[..k] == requirements[..k];
      PlanningStops(http, init, nextId, others, k);
    }
  }

  method FromAuthPlan(http: Http, requirements: seq<AuthRequirement>, ids: AuthSlotIds, others: nat -> nat)
    returns (r: Result<PlacementPlan, AuthError>)
    modifies ids
    ensures Planned(r, ids.next) == PlanAll(http, requirements, old(ids.next), others)
  {
    var slots: seq<PlannedSlot>, keys: seq<string> := [], [];
    for k := 0 to |requirements|
      invariant PlanAll(http, requirements[..k], old(ids.next), others)
             == Planned(Ok(PlacementPlan(slots, keys)), ids.next)
    {
      ghost var upTo := requirements[..k + 1];
      assert upTo[..|upTo| - 1] == requirements[..k];
      var requirement := requirements[k];
      var placement := PlanPlacement(http, requirement.placement);
      if placement.Err? {
        PlanningStops(http, requirements, old(ids.next), others, k + 1);
        return Err(placement.error);
      }
      if placement.value.PlannedHeader? && IsForbiddenAuthPlacement(placement.value.name) {
        PlanningStops(http, requirements, old(ids.next), others, k + 1);
        return Err(ConfigurationError("authentication may not own reserved header"));
      }
      if AnyCollides(slots, placement.value) {
        PlanningStops(http, requirements, old(ids.next), others, k + 1);
        return Err(ConfigurationError("duplicate authentication placement target"));
      }
      ids.DrawnByOthers(others(k));
      var id := ids.Next();
      if id.Err? {
        PlanningStops(http, requirements, old(ids.next), others, k + 1);
        return Err(id.error);
      }
      if placement.value.PlannedQuery? && !Covers(keys, placement.value.name) {
        keys := keys + [placement.value.name];
      }
      slots := slots + [PlannedSlot(id.value, requirement.credential, requirement.usage, requirement.step,
                                    requirement.provenance, placement.value)];
    }
    assert requirements[..|requirements|] == requirements;
    return Ok(PlacementPlan(slots, keys));
  }

  /** The counter after `k` draws of one plan, while it does not overflow. */
  function Counter(first: nat, others: nat -> nat, k: nat): nat {
    if k == 0 then first else Counter(first, others, k - 1) + others(k - 1) + 1
  }

  /** What a plan guarantees: one slot per requirement, an id and a target of its own for each. */
  ghost predicate GoodPlan(http: Http, requirements: seq<AuthRequirement>, first: nat, nextId: nat,
                           plan: PlacementPlan) {
    && |plan.slots| == |requirements|
    && (forall i :: 0 <= i < |plan.slots| ==>
          && first <= plan.slots[i].id < nextId
          && plan.slots[i].credential == requirements[i].credential
          && plan.slots[i].usage == requirements[i].usage
          && plan.slots[i].step == requirements[i].step
          && plan.slots[i].provenance == requirements[i].provenance
          && PlanPlacement(http, requirements[i].placement) == Ok(plan.slots[i].placement))
    && first <= nextId
    && DistinctIds(plan.slots)
    && DistinctTargets(plan.slots)
  }

  ghost predicate DistinctIds(slots: seq<PlannedSlot>) {
    forall i, j :: 0 <= i < j < |slots| ==> slots[i].id != slots[j].id
  }

  ghost predicate DistinctTargets(slots: seq<PlannedSlot>) {
    forall i, j :: 0 <= i < j < |slots| ==> TargetOf(slots[i].placement) != TargetOf(slots[j].placement)
  }

  lemma PlanOneIsGood(http: Http, init: seq<AuthRequirement>, last: AuthRequirement, first: nat, nextId: nat,
                      others: nat, plan: PlacementPlan)
    requires GoodPlan(http, init, first, nextId, plan) && PlanOne(http, plan, last, nextId, others).result.Ok?
    ensures var planned := PlanOne(http, plan, last, nextId, others);
            && planned.nextId == nextId + others + 1
            && GoodPlan(http, init + [last], first, planned.nextId, planned.result.value)
  {
    var added := PlanPlacement(http, last.placement).value;
    forall i | 0 <= i < |plan.slots|
      ensures TargetOf(plan.slots[i].placement) != TargetOf(added)
    {
      CollideIffSameTarget(plan.slots[i].placement, added);
    }
  }

  /** Planning one more requirement is one more step. */
  lemma PlanAllSnoc(http: Http, init: seq<AuthRequirement>, last: AuthRequirement, nextId: nat, others: nat -> nat)
    ensures var before := PlanAll(http, init, nextId, others);
            PlanAll(http, init + [last], nextId, others) ==
              if before.result.Err? then before
              else PlanOne(http, before.result.value, last, before.nextId, others(|init|))
  {
    assert (init + [last])[..|init|] == init;
  }

  lemma {:induction false} PlansAreGood(http: Http, requirements: seq<AuthRequirement>, nextId: nat, others: nat -> nat)
    ensures var planned := PlanAll(http, requirements, nextId, others);
            planned.result.Ok? ==>
              && GoodPlan(http, requirements, nextId, planned.nextId, planned.result.value)
              && planned.nextId == Counter(nextId, others, |requirements|)
  {
    if requirements != [] {
      var k := |requirements| - 1;
      var init, last := requirements[..k], requirements[k];
      assert requirements == init + [last];
      PlanAllSnoc(http, init, last, nextId, others);
      if PlanAll(http, requirements, nextId, others).result.Ok? {
        PlansAreGood(http, init, nextId, others);
        var before := PlanAll(http, init, nextId, others);
        PlanOneIsGood(http, init, last, nextId, before.nextId, others(k), before.result.value);
      }
    }
  }

  /** The requirement alone can be placed: its header name parses and belongs to nobody else. */
  predicate Placeable(http: Http, requirement: AuthRequirement) {
    var p := PlanPlacement(http, requirement.placement);
    p.Ok? && !(p.value.PlannedHeader? && IsForbiddenAuthPlacement(p.value.name))
  }

  predicate SameTarget(http: Http, a: AuthRequirement, b: AuthRequirement)
    requires Placeable(http, a) && Placeable(http, b)
  {
    TargetOf(PlanPlacement(http, a.placement).value) == TargetOf(PlanPlacement(http, b.placement).value)
  }

  /** Every requirement can be placed, and no two of them at one target. */
  ghost predicate Plannable(http: Http, requirements: seq<AuthRequirement>) {
    && (forall i :: 0 <= i < |requirements| ==> Placeable(http, requirements[i]))
    && (forall i, j :: 0 <= i < j < |requirements| ==> !SameTarget(http, requirements[i], requirements[j]))
  }

  /** The id counter has room for this plan's draws and those in between. */
  predicate HasRoom(count: nat, first: nat, others: nat -> nat) {
    count > 0 ==> Counter(first, others, count) <= U64_MAX
  }

  /** Adding a requirement to a good plan fails exactly for the reasons that make the longer list unplannable. */
  lemma PlanOneSucceedsIff(http: Http, init: seq<AuthRequirement>, last: AuthRequirement, first: nat, nextId: nat,
                           others: nat, plan: PlacementPlan)
    requires GoodPlan(http, init, first, nextId, plan) && Plannable(http, init)
    ensures PlanOne(http, plan, last, nextId, others).result.Ok?
       <==> Plannable(http, init + [last]) && nextId + others < U64_MAX
  {
    var all := init + [last];
    assert forall i :: 0 <= i < |init| ==> all[i] == init[i];
    assert all[|init|] == last;
    if Placeable(http, last) {
      var p := PlanPlacement(http, last.placement).value;
      forall i | 0 <= i < |init|
        ensures Collide(plan.slots[i].placement, p) <==> SameTarget(http, init[i], last)
      {
        CollideIffSameTarget(plan.slots[i].placement, p);
      }
      assert AnyCollides(plan.slots, p) <==> exists i :: 0 <= i < |init| && SameTarget(http, init[i], last);
    }
  }

  /** Planning succeeds exactly when the requirements can be placed together and the id counter has room. */
  lemma {:induction false} PlanningSucceedsIff(http: Http, requirements: seq<AuthRequirement>, nextId: nat,
                                               others: nat -> nat)
    ensures PlanAll(http, requirements, nextId, others).result.Ok?
       <==> Plannable(http, requirements) && HasRoom(|requirements|, nextId, others)
  {
    if requirements != [] {
      var k := |requirements| - 1;
      var init, last := requirements[..k], requirements[k];
      PlanningSucceedsIff(http, init, nextId, others);
      PlansAreGood(http, init, nextId, others);
      assert requirements == init + [last];
      var before := PlanAll(http, init, nextId, others);
      if before.result.Ok? {
        PlanOneSucceedsIff(http, init, last, nextId, before.nextId, others(k), before.result.value);
      } else {
        assert forall i :: 0 <= i < |init| ==> init[i] == requirements[i];
      }
    }
  }

  predicate NamesQuery(slot: PlannedSlot, name: string) {
    slot.placement.PlannedQuery? && AsciiLower(slot.placement.name) == AsciiLower(name)
  }

  lemma CoversSnoc(keys: seq<string>, last: string, name: string)
    ensures Covers(keys + [last], name) <==> Covers(keys, name) || AsciiLower(last) == AsciiLower(name)
  {
    var all := keys + [last];
    assert forall i :: 0 <= i < |keys| ==> all[i] == keys[i];
    assert all[|keys|] == last;
  }

  /** A query key is marked sensitive exactly when some query slot has that name, in any ASCII case. */
  lemma {:induction false} SensitiveKeysAreExact(http: Http, requirements: seq<AuthRequirement>, nextId: nat,
                                                 others: nat -> nat, name: string)
    requires PlanAll(http, requirements, nextId, others).result.Ok?
    ensures var plan := PlanAll(http, requirements, nextId, others).result.value;
            Covers(plan.sensitiveQueryKeys, name)
            <==> exists i :: 0 <= i < |plan.slots| && NamesQuery(plan.slots[i], name)
  {
    if requirements != [] {
      var init := requirements[..|requirements| - 1];
      SensitiveKeysAreExact(http, init, nextId, others, name);
      var before := PlanAll(http, init, nextId, others).result.value;
      var after := PlanAll(http, requirements, nextId, others).result.value;
      var added := after.slots[|before.slots|];
      assert after.slots == before.slots + [added];
      assert forall i :: 0 <= i < |before.slots| ==> after.slots[i] == before.slots[i];
      if added.placement.PlannedQuery? {
        CoversSnoc(before.sensitiveQueryKeys, added.placement.name, name);
      }
    }
  }

  // ----- checking the public request

  predicate HasQueryKey(query: seq<(string, string)>, name: string) {
    exists i :: 0 <= i < |query| && query[i].0 == name
  }

  predicate SlotIsFree(slot: PlannedSlot, message: Message, reserved: seq<string>) {
    match slot.placement
    case PlannedBearer => AUTHORIZATION !in message.headers
    case PlannedBasic => AUTHORIZATION !in message.headers
    case PlannedHeader(name) => name !in message.headers && name !in reserved
    case PlannedQuery(name) => !HasQueryKey(message.query, name)
  }

  method ValidatePublicRequest(plan: PlacementPlan, message: Message, reserved: seq<string>) returns (ok: bool)
    ensures ok <==> forall i :: 0 <= i < |plan.slots| ==> SlotIsFree(plan.slots[i], message, reserved)
  {
    for k := 0 to |plan.slots|
      invariant forall i :: 0 <= i < k ==> SlotIsFree(plan.slots[i], message, reserved)
    {
      match plan.slots[k].placement {
        case PlannedBearer =>
          if AUTHORIZATION in message.headers {
            return false;
          }
        case PlannedBasic =>
          if AUTHORIZATION in message.headers {
            return false;
          }
        case PlannedHeader(name) =>
          if name in message.headers || name in reserved {
            return false;
          }
        case PlannedQuery(name) =>
          if HasQueryKey(message.query, name) {
            return false;
          }
      }
    }
    return true;
  }

  // ----- materials

  predicate MaterialMatches(material: Material, slot: PlannedSlot) {
    material.BasicMaterial? <==> slot.placement.PlannedBasic?
  }

  /** A prepared credential belongs to its slot. */
  predicate BindingValid(prepared: PreparedCredential, slot: PlannedSlot) {
    && prepared.material.slotId == slot.id && MaterialMatches(prepared.material, slot)
    && prepared.applied.credential == slot.credential
    && prepared.applied.usage == slot.usage
    && prepared.applied.step == slot.step
    && prepared.applied.provenance == slot.provenance
  }

  function BySlot(materials: seq<Material>): map<nat, Material> {
    if materials == [] then map[]
    else
      var last := materials[|materials| - 1];
      BySlot(materials[..|materials| - 1])[last.slotId := last]
  }

  /** The header value a material turns into at its slot. */
  function HeaderText(http: Http, slot: PlannedSlot, material: Material): string
    requires MaterialMatches(material, slot) && !slot.placement.PlannedQuery?
  {
    match slot.placement
    case PlannedBearer => "Bearer " + material.secret
    case PlannedHeader(_) => material.secret
    case PlannedBasic => "Basic " + http.base64(material.username + ":" + material.password)
  }

  function Place(http: Http, message: Message, slot: PlannedSlot, bySlot: map<nat, Material>)
    : Result<Message, AuthError>
  {
    if slot.id !in bySlot then Err(NewError(MissingCredential, "missing materialized credential"))
    else if !MaterialMatches(bySlot[slot.id], slot) then
      Err(NewError(UnsupportedScheme, "credential material does not match auth placement"))
    else
      var material := bySlot[slot.id];
      match TargetOf(slot.placement)
      case QueryTarget(name) => Ok(message.(query := message.query + [(name, material.secret)]))
      case HeaderTarget(name) =>
        var value := HeaderText(http, slot, material);
        if !http.validHeaderValue(value) then Err(NewError(UnsupportedScheme, "invalid auth header value"))
        else Ok(message.(headers := message.headers[name := [value]]))
  }

  function PlaceAll(http: Http, message: Message, slots: seq<PlannedSlot>, bySlot: map<nat, Material>)
    : Result<Message, AuthError>
  {
    if slots == [] then Ok(message)
    else
      match PlaceAll(http, message, slots[..|slots| - 1], bySlot)
      case Err(e) => Err(e)
      case Ok(m) => Place(http, m, slots[|slots| - 1], bySlot)
  }

  lemma {:induction false} PlacingStops(http: Http, message: Message, slots: seq<PlannedSlot>,
                                        bySlot: map<nat, Material>, k: nat)
    requires k <= |slots| && PlaceAll(http, message, slots[..k], bySlot).Err?
    ensures PlaceAll(http, message, slots, bySlot) == PlaceAll(http, message, slots[..k], bySlot)
    decreases |slots|
  {
    if k == |slots| {
      assert slots[..k] == slots;
    } else {
      assert slots[..|slots| - 1][..k] == slots[..k];
      PlacingStops(http, message, slots[..|slots| - 1], bySlot, k);
    }
  }

  method MaterializeAuthentication(http: Http, message: Message, plan: PlacementPlan, materials: seq<Material>)
    returns (r: Result<Message, AuthError>)
    ensures r == PlaceAll(http, message, plan.slots, BySlot(materials))
  {
    var bySlot: map<nat, Material> := map[];
    for k := 0 to |materials|
      invariant bySlot == BySlot(materials[..k])
    {
      bySlot := bySlot[materials[k].slotId := materials[k]];
      assert materials[..k + 1][..k] == materials[..k];
    }
    assert materials[..|materials|] == materials;
    var current := message;
    for k := 0 to |plan.slots|
      invariant PlaceAll(http, message, plan.slots[..k], bySlot) == Ok(current)
    {
      assert plan.slots[..k + 1][..k] == plan.slots[..k];
      var placed := Place(http, current, plan.slots[k], bySlot);
      if placed.Err? {
        PlacingStops(http, message, plan.slots, bySlot, k + 1);
        return placed;
      }
      current := placed.value;
    }
    assert plan.slots[..|plan.slots|] == plan.slots;
    return Ok(current);
  }

  // ----- what materialisation guarantees

  /** Every slot finds a material of its own kind under its id. */
  ghost predicate Supplied(slots: seq<PlannedSlot>, bySlot: map<nat, Material>) {
    forall i :: 0 <= i < |slots| ==> slots[i].id in bySlot && MaterialMatches(bySlot[slots[i].id], slots[i])
  }

  ghost predicate HeaderIsValid(http: Http, slot: PlannedSlot, bySlot: map<nat, Material>)
    requires slot.id in bySlot && MaterialMatches(bySlot[slot.id], slot)
  {
    slot.placement.PlannedQuery? || http.validHeaderValue(HeaderText(http, slot, bySlot[slot.id]))
  }

  /** The query pairs of the query slots, in slot order. */
  function QueryPairs(slots: seq<PlannedSlot>, bySlot: map<nat, Material>): seq<(string, string)> {
    if slots == [] then []
    else
      var last := slots[|slots| - 1];
      QueryPairs(slots[..|slots| - 1], bySlot) +
      if last.placement.PlannedQuery? && last.id in bySlot && bySlot[last.id].SecretMaterial?
      then [(last.placement.name, bySlot[last.id].secret)] else []
  }

  /** The public request is intact, and each header slot's credential stands alone under its own name. */
  ghost predicate FaithfulHeaders(http: Http, message: Message, slots: seq<PlannedSlot>, bySlot: map<nat, Material>,
                                  after: map<string, seq<string>>)
    requires Supplied(slots, bySlot)
  {
    && (forall h :: h in message.headers ==> h in after && after[h] == message.headers[h])
    && (forall i :: 0 <= i < |slots| && !slots[i].placement.PlannedQuery? ==>
          var name := TargetOf(slots[i].placement).name;
          name in after && after[name] == [HeaderText(http, slots[i], bySlot[slots[i].id])])
    && (forall h :: h in after ==>
          h in message.headers || exists i :: 0 <= i < |slots| && TargetOf(slots[i].placement) == HeaderTarget(h))
  }

  lemma PlaceIsFaithful(http: Http, message: Message, slots: seq<PlannedSlot>, bySlot: map<nat, Material>, m: Message)
    requires slots != [] && Supplied(slots, bySlot) && DistinctTargets(slots)
    requires forall i :: 0 <= i < |slots| ==> SlotIsFree(slots[i], message, [])
    requires FaithfulHeaders(http, message, slots[..|slots| - 1], bySlot, m.headers)
    requires Place(http, m, slots[|slots| - 1], bySlot).Ok?
    ensures FaithfulHeaders(http, message, slots, bySlot, Place(http, m, slots[|slots| - 1], bySlot).value.headers)
  {
    var init := slots[..|slots| - 1];
    assert forall i :: 0 <= i < |init| ==> init[i] == slots[i];
  }

  ghost predicate AllHeadersValid(http: Http, slots: seq<PlannedSlot>, bySlot: map<nat, Material>)
    requires Supplied(slots, bySlot)
  {
    forall i :: 0 <= i < |slots| ==> HeaderIsValid(http, slots[i], bySlot)
  }

  /** A slot with a matching material fails only on an invalid header value. */
  lemma PlaceFailsOnHeader(http: Http, m: Message, slot: PlannedSlot, bySlot: map<nat, Material>)
    requires slot.id in bySlot && MaterialMatches(bySlot[slot.id], slot)
    ensures Place(http, m, slot, bySlot).Ok? <==> HeaderIsValid(http, slot, bySlot)
    ensures var placed := Place(http, m, slot, bySlot);
            var added := if slot.placement.PlannedQuery? then [(slot.placement.name, bySlot[slot.id].secret)] else [];
            placed.Ok? ==> placed.value.query == m.query + added
  {
    assert m.query + [] == m.query;
  }

  lemma AllHeadersValidSnoc(http: Http, slots: seq<PlannedSlot>, bySlot: map<nat, Material>)
    requires slots != [] && Supplied(slots, bySlot)
    ensures Supplied(slots[..|slots| - 1], bySlot)
    ensures AllHeadersValid(http, slots, bySlot) <==>
              && AllHeadersValid(http, slots[..|slots| - 1], bySlot)
              && HeaderIsValid(http, slots[|slots| - 1], bySlot)
  {
    var init := slots[..|slots| - 1];
    assert forall i :: 0 <= i < |init| ==> init[i] == slots[i];
  }

  lemma {:induction false} PlacingIsFaithful(http: Http, message: Message, slots: seq<PlannedSlot>,
                                             bySlot: map<nat, Material>)
    requires Supplied(slots, bySlot) && DistinctTargets(slots)
    requires forall i :: 0 <= i < |slots| ==> SlotIsFree(slots[i], message, [])
    ensures var r := PlaceAll(http, message, slots, bySlot);
            && (r.Ok? <==> AllHeadersValid(http, slots, bySlot))
            && (r.Ok? ==>
                  && FaithfulHeaders(http, message, slots, bySlot, r.value.headers)
                  && r.value.query == message.query + QueryPairs(slots, bySlot))
  {
    if slots == [] {
      assert message.query + QueryPairs(slots, bySlot) == message.query;
    } else {
      var init, last := slots[..|slots| - 1], slots[|slots| - 1];
      AllHeadersValidSnoc(http, slots, bySlot);
      PlacingIsFaithful(http, message, init, bySlot);
      var before := PlaceAll(http, message, init, bySlot);
      if before.Ok? {
        PlaceFailsOnHeader(http, before.value, last, bySlot);
        if Place(http, before.value, last, bySlot).Ok? {
          PlaceIsFaithful(http, message, slots, bySlot, before.value);
        }
      }
    }
  }

  lemma {:induction false} BySlotFinds(prepared: seq<PreparedCredential>, i: nat)
    requires i < |prepared|
    requires forall k :: 0 <= k < |prepared| && k != i ==> prepared[k].material.slotId != prepared[i].material.slotId
    ensures var bySlot := BySlot(Materials(prepared));
            var id := prepared[i].material.slotId;
            id in bySlot && bySlot[id] == prepared[i].material
    decreases |prepared|
  {
    var init := prepared[..|prepared| - 1];
    assert Materials(prepared)[..|prepared| - 1] == Materials(init);
    if i < |init| {
      BySlotFinds(init, i);
    }
  }

  function Materials(prepared: seq<PreparedCredential>): seq<Material> {
    seq(|prepared|, i requires 0 <= i < |prepared| => prepared[i].material)
  }

  /** The query keys of the finished request name each query slot once. */
  function KeyCount(query: seq<(string, string)>, name: string): nat {
    if query == [] then 0 else KeyCount(query[..|query| - 1], name) + if query[|query| - 1].0 == name then 1 else 0
  }

  lemma {:induction false} KeyCountAppend(a: seq<(string, string)>, b: seq<(string, string)>, name: string)
    ensures KeyCount(a + b, name) == KeyCount(a, name) + KeyCount(b, name)
    decreases |b|
  {
    if b == [] {
      assert a + b == a;
    } else {
      assert (a + b)[..|a + b| - 1] == a + b[..|b| - 1];
      KeyCountAppend(a, b[..|b| - 1], name);
    }
  }

  lemma {:induction false} NoKeyCountsZero(query: seq<(string, string)>, name: string)
    requires !HasQueryKey(query, name)
    ensures KeyCount(query, name) == 0
  {
    if query != [] {
      assert query[|query| - 1].0 != name;
      assert forall i :: 0 <= i < |query| - 1 ==> query[..|query| - 1][i] == query[i];
      NoKeyCountsZero(query[..|query| - 1], name);
    }
  }

  lemma {:induction false} SlotPairCountsOnce(slots: seq<PlannedSlot>, bySlot: map<nat, Material>, name: string)
    requires Supplied(slots, bySlot) && DistinctTargets(slots)
    ensures KeyCount(QueryPairs(slots, bySlot), name)
         == if exists i :: 0 <= i < |slots| && slots[i].placement == PlannedQuery(name) then 1 else 0
  {
    if slots != [] {
      var init, last := slots[..|slots| - 1], slots[|slots| - 1];
      assert forall i :: 0 <= i < |init| ==> init[i] == slots[i];
      SlotPairCountsOnce(init, bySlot, name);
      var pair := if last.placement.PlannedQuery? then [(last.placement.name, bySlot[last.id].secret)] else [];
      KeyCountAppend(QueryPairs(init, bySlot), pair, name);
      assert pair[..0] == [];
      if last.placement == PlannedQuery(name) {
        assert forall i :: 0 <= i < |init| ==> TargetOf(slots[i].placement) != TargetOf(last.placement);
      }
    }
  }

  /** Each query slot's name occurs once in the finished query. */
  lemma QueryKeysOnce(message: Message, slots: seq<PlannedSlot>, bySlot: map<nat, Material>, i: nat)
    requires Supplied(slots, bySlot) && DistinctTargets(slots)
    requires i < |slots| && slots[i].placement.PlannedQuery? && SlotIsFree(slots[i], message, [])
    ensures KeyCount(message.query + QueryPairs(slots, bySlot), slots[i].placement.name) == 1
  {
    var name := slots[i].placement.name;
    KeyCountAppend(message.query, QueryPairs(slots, bySlot), name);
    NoKeyCountsZero(message.query, name);
    SlotPairCountsOnce(slots, bySlot, name);
    assert slots[i].placement == PlannedQuery(name);
  }

  /** Every slot finds its own prepared credential. */
  lemma PreparedSupplies(slots: seq<PlannedSlot>, prepared: seq<PreparedCredential>)
    requires |prepared| == |slots| && DistinctIds(slots)
    requires forall i :: 0 <= i < |slots| ==> BindingValid(prepared[i], slots[i])
    ensures var bySlot := BySlot(Materials(prepared));
            Supplied(slots, bySlot) && forall i :: 0 <= i < |slots| ==> bySlot[slots[i].id] == prepared[i].material
  {
    forall i | 0 <= i < |slots|
      ensures slots[i].id in BySlot(Materials(prepared))
      ensures BySlot(Materials(prepared))[slots[i].id] == prepared[i].material
    {
      BySlotFinds(prepared, i);
    }
  }

  /** The finished request, or the one way to fail. */
  ghost predicate Materialized(http: Http, message: Message, slots: seq<PlannedSlot>, bySlot: map<nat, Material>,
                               r: Result<Message, AuthError>)
    requires Supplied(slots, bySlot)
  {
    && (r.Ok? <==> AllHeadersValid(http, slots, bySlot))
    && (r.Ok? ==>
          && FaithfulHeaders(http, message, slots, bySlot, r.value.headers)
          && r.value.query == message.query + QueryPairs(slots, bySlot)
          && forall i :: 0 <= i < |slots| && slots[i].placement.PlannedQuery? ==>
               KeyCount(r.value.query, slots[i].placement.name) == 1)
  }

  lemma PlacingMaterializes(http: Http, message: Message, slots: seq<PlannedSlot>, bySlot: map<nat, Material>)
    requires Supplied(slots, bySlot) && DistinctTargets(slots)
    requires forall i :: 0 <= i < |slots| ==> SlotIsFree(slots[i], message, [])
    ensures Materialized(http, message, slots, bySlot, PlaceAll(http, message, slots, bySlot))
  {
    PlacingIsFaithful(http, message, slots, bySlot);
    forall i | 0 <= i < |slots| && slots[i].placement.PlannedQuery?
      ensures KeyCount(message.query + QueryPairs(slots, bySlot), slots[i].placement.name) == 1
    {
      QueryKeysOnce(message, slots, bySlot, i);
    }
  }

  /**
  From plan to request: if planning and public validation succeed and each
  slot's prepared credential passed its binding check, materialisation fails
  exactly on an invalid header value, and otherwise keeps every public header and
  query pair and puts each credential alone at its own target.
  */
  lemma MaterializationIsFaithful(
    http: Http, requirements: seq<AuthRequirement>, first: nat, others: nat -> nat, message: Message,
    reserved: seq<string>, prepared: seq<PreparedCredential>)
    requires PlanAll(http, requirements, first, others).result.Ok?
    requires var slots := PlanAll(http, requirements, first, others).result.value.slots;
             && (forall i :: 0 <= i < |slots| ==> SlotIsFree(slots[i], message, reserved))
             && |prepared| == |slots| && (forall i :: 0 <= i < |slots| ==> BindingValid(prepared[i], slots[i]))
    ensures var slots := PlanAll(http, requirements, first, others).result.value.slots;
            var bySlot := BySlot(Materials(prepared));
            && Supplied(slots, bySlot)
            && (forall i :: 0 <= i < |slots| ==> bySlot[slots[i].id] == prepared[i].material)
            && Materialized(http, message, slots, bySlot, PlaceAll(http, message, slots, bySlot))
  {
    PlansAreGood(http, requirements, first, others);
    var slots := PlanAll(http, requirements, first, others).result.value.slots;
    PreparedSupplies(slots, prepared);
    PlacingMaterializes(http, message, slots, BySlot(Materials(prepared)));
  }

  // ----- the finished request, requirement by requirement

  /** The text of a header that carries basic credentials, read back: scheme, base64, and the first colon. */
  function ReadBasic(unbase64: string -> Option<string>, value: string): Option<(string, string)> {
    if !("Basic " <= value) then None
    else
      match unbase64(value[6..])
      case None => None
      case Some(pair) =>
        var at := ColonAt(pair);
        if at < |pair| then Some((pair[..at], pair[at + 1..])) else None
  }

  /** The place of the first colon, or the length of the text. */
  function ColonAt(s: string): (at: nat)
    ensures at <= |s| && (at < |s| ==> s[at] == ':')
    ensures forall i :: 0 <= i < at ==> s[i] != ':'
  {
    if s == "" || s[0] == ':' then 0
    else
      assert forall i :: 1 <= i < |s| ==> s[i] == s[1..][i - 1];
      1 + ColonAt(s[1..])
  }

  ghost predicate UndoesBase64(http: Http, unbase64: string -> Option<string>) {
    forall s: string :: unbase64(http.base64(s)) == Some(s)
  }

  lemma BasicReadsBack(http: Http, unbase64: string -> Option<string>, username: string, password: string)
    requires UndoesBase64(http, unbase64) && ':' !in username
    ensures ReadBasic(unbase64, "Basic " + http.base64(username + ":" + password)) == Some((username, password))
  {
    var value, pair := "Basic " + http.base64(username + ":" + password), username + ":" + password;
    assert value[6..] == http.base64(pair);
    var at := ColonAt(pair);
    assert pair[|username|] == ':';
    assert forall k :: 0 <= k < |username| ==> pair[k] == username[k];
    assert at == |username|;
    assert pair[..at] == username && pair[at + 1..] == password;
  }

  /**
  Where the credential of one requirement is in the finished request: a bearer
  secret behind its scheme and a basic pair in the authorization header, a header
  secret as it is under the parsed name, a query secret under the query name. Each
  of the headers has that one value.
  */
  ghost predicate Arrived(http: Http, placement: AuthPlacement, material: Material, message: Message) {
    match placement
    case BearerAuth =>
      && material.SecretMaterial? && "authorization" in message.headers
      && message.headers["authorization"] == ["Bearer " + material.secret]
    case BasicAuth =>
      && material.BasicMaterial? && "authorization" in message.headers
      && message.headers["authorization"] == ["Basic " + http.base64(material.username + ":" + material.password)]
    case HeaderAuth(name) =>
      && material.SecretMaterial? && http.parseHeaderName(name).Some?
      && http.parseHeaderName(name).value in message.headers
      && message.headers[http.parseHeaderName(name).value] == [material.secret]
    case QueryAuth(name) =>
      && material.SecretMaterial? && (name, material.secret) in message.query
  }

  lemma {:induction false} PairIsPresent(slots: seq<PlannedSlot>, bySlot: map<nat, Material>, i: nat)
    requires i < |slots| && slots[i].placement.PlannedQuery?
    requires slots[i].id in bySlot && bySlot[slots[i].id].SecretMaterial?
    ensures (slots[i].placement.name, bySlot[slots[i].id].secret) in QueryPairs(slots, bySlot)
    decreases |slots|
  {
    if i < |slots| - 1 {
      PairIsPresent(slots[..|slots| - 1], bySlot, i);
    }
  }

  /**
  Every credential arrives: in the finished request each requirement's own
  credential is where its placement says, in the form its placement says.
  */
  lemma CredentialsArrive(
    http: Http, requirements: seq<AuthRequirement>, first: nat, others: nat -> nat, message: Message,
    reserved: seq<string>, prepared: seq<PreparedCredential>, i: nat)
    requires PlanAll(http, requirements, first, others).result.Ok?
    requires var slots := PlanAll(http, requirements, first, others).result.value.slots;
             && (forall j :: 0 <= j < |slots| ==> SlotIsFree(slots[j], message, reserved))
             && |prepared| == |slots| && (forall j :: 0 <= j < |slots| ==> BindingValid(prepared[j], slots[j]))
             && PlaceAll(http, message, slots, BySlot(Materials(prepared))).Ok?
    requires i < |requirements|
    ensures var slots := PlanAll(http, requirements, first, others).result.value.slots;
            && |prepared| == |requirements|
            && Arrived(http, requirements[i].placement, prepared[i].material,
                       PlaceAll(http, message, slots, BySlot(Materials(prepared))).value)
  {
    MaterializationIsFaithful(http, requirements, first, others, message, reserved, prepared);
    PlansAreGood(http, requirements, first, others);
    var slots, bySlot := PlanAll(http, requirements, first, others).result.value.slots, BySlot(Materials(prepared));
    assert PlanPlacement(http, requirements[i].placement) == Ok(slots[i].placement);
    if slots[i].placement.PlannedQuery? {
      PairIsPresent(slots, bySlot, i);
    }
  }

  /** The uses that a request records are those its requirements ask for. */
  lemma PreparedUsesAreRequired(http: Http, requirements: seq<AuthRequirement>, first: nat, others: nat -> nat,
                                prepared: PreparedCredential, i: nat)
    requires PlanAll(http, requirements, first, others).result.Ok? && i < |requirements|
    requires i < |PlanAll(http, requirements, first, others).result.value.slots|
    requires BindingValid(prepared, PlanAll(http, requirements, first, others).result.value.slots[i])
    ensures && prepared.applied.credential == requirements[i].credential
            && prepared.applied.usage == requirements[i].usage
            && prepared.applied.step == requirements[i].step
            && prepared.applied.provenance == requirements[i].provenance
  {
    PlansAreGood(http, requirements, first, others);
  }

  // ----- refusals

  /** A target is free when nothing public is there, and a header target also when it is not reserved. */
  lemma FreeMeansUnused(slot: PlannedSlot, message: Message, reserved: seq<string>)
    ensures SlotIsFree(slot, message, reserved) <==>
              if slot.placement.PlannedQuery? then
                forall i :: 0 <= i < |message.query| ==> message.query[i].0 != slot.placement.name
              else if slot.placement.PlannedHeader? then
                slot.placement.name !in message.headers && slot.placement.name !in reserved
              else "authorization" !in message.headers
  {
  }

  /** Protocol headers, identity headers and the client's own headers never carry a header credential. */
  lemma OwnedHeadersAreRefused(http: Http, plan: PlacementPlan, requirement: AuthRequirement, nextId: nat, others: nat,
                               name: string)
    requires requirement.placement == HeaderAuth(name)
    requires http.parseHeaderName(name).None?
             || http.parseHeaderName(name).value in
                  {"authorization", "proxy-authorization", "cookie", "set-cookie", "host", "content-length",
                   "content-type", "transfer-encoding", "connection", "te", "trailer", "upgrade", "keep-alive",
                   "accept-encoding", "user-agent", "www-authenticate", "proxy-authenticate", "proxy-connection",
                   "idempotency-key", "x-request-id", "request-id", "x-correlation-id", "correlation-id",
                   "request-idempotency-key", "x-request-idempotency-key"}
    ensures PlanOne(http, plan, requirement, nextId, others).result.Err?
    ensures PlanOne(http, plan, requirement, nextId, others).nextId == nextId
  {
  }

  /** Planning only ever fails as a configuration error. */
  lemma {:induction false} PlanningFailsAsConfiguration(http: Http, requirements: seq<AuthRequirement>, nextId: nat,
                                                        others: nat -> nat)
    ensures PlanAll(http, requirements, nextId, others).result.Err? ==>
              PlanAll(http, requirements, nextId, others).result.error.kind == InvalidConfiguration
  {
    if requirements != [] {
      PlanningFailsAsConfiguration(http, requirements[..|requirements| - 1], nextId, others);
    }
  }

  /** How one slot can fail: no material, material of the other kind, or text that is no header value. */
  lemma PlaceFailures(http: Http, message: Message, slot: PlannedSlot, bySlot: map<nat, Material>)
    ensures var r := Place(http, message, slot, bySlot);
            r.Err? ==>
              if slot.id !in bySlot then r.error.kind == MissingCredential
              else
                && r.error.kind == UnsupportedScheme
                && (bySlot[slot.id].BasicMaterial? == slot.placement.PlannedBasic? ==>
                      !slot.placement.PlannedQuery? && !http.validHeaderValue(HeaderText(http, slot, bySlot[slot.id])))
    ensures slot.id !in bySlot || bySlot[slot.id].BasicMaterial? != slot.placement.PlannedBasic? ==>
              Place(http, message, slot, bySlot).Err?
  {
  }

  /** Of several materials for one slot the last one counts. */
  lemma {:induction false} LastMaterialCounts(materials: seq<Material>, i: nat)
    requires i < |materials| && forall j :: i < j < |materials| ==> materials[j].slotId != materials[i].slotId
    ensures materials[i].slotId in BySlot(materials) && BySlot(materials)[materials[i].slotId] == materials[i]
    decreases |materials|
  {
    if i < |materials| - 1 {
      LastMaterialCounts(materials[..|materials| - 1], i);
    }
  }
}
