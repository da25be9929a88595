/** Idempotent creation through the bridge (crates/cocli-api/src/lib.rs). Requests run one after the
    other, under the bridge mutation lock. */
module Idempotency {
  import opened Prelude

  const MAX_KEY_CHARS: nat := 200

  datatype CreateAction = ChannelCreate | AgentCreate

  datatype Request = Request(caller: nat, action: CreateAction, key: Option<string>, fingerprint: string)

  datatype Operation = Operation(fingerprint: string, resultId: nat)

  type Slot = (nat, CreateAction, string)

  /** Recorded operations with a key, and the resources created; ids are never reused. */
  datatype Store = Store(operations: map<Slot, Operation>, nextId: nat, resources: set<nat>)

  const EMPTY: Store := Store(map[], 0, {})

  /** Where the store fails while one request is handled. */
  datatype Fault = NoFault | CreateFails | SetupFails | RecordFails

  datatype Reply = Created(id: nat) | Replayed(id: nat) | Conflict | BadRequest | NotFound | StoreFailed {
    predicate Success() { Created? || Replayed? }
  }

  function TrimStart(s: string): (r: string)
    ensures r == [] || !IsWhitespace(r[0])
    ensures |r| <= |s|
  {
    if s != [] && IsWhitespace(s[0]) then TrimStart(s[1..]) else s
  }

  function TrimEnd(s: string): (r: string)
    ensures r == [] || !IsWhitespace(r[|r| - 1])
    ensures r <= s
  {
    if s != [] && IsWhitespace(s[|s| - 1]) then TrimEnd(s[..|s| - 1]) else s
  }

  /** The key that counts: trimmed, and none at all when nothing is left. */
  function EffectiveKey(key: Option<string>): Option<string> {
    if key.None? then None
    else
      var trimmed := TrimEnd(TrimStart(key.value));
      if trimmed == [] then None else Some(trimmed)
  }

  function SlotOf(r: Request): Option<Slot> {
    match EffectiveKey(r.key)
    case None => None
    case Some(key) => Some((r.caller, r.action, key))
  }

  /** Creating the resource and recording the operation, up to the point where the store fails. */
  function Create(s: Store, r: Request, fault: Fault): (Store, Reply) {
    if fault == CreateFails then (s, StoreFailed)
    else
      var id := s.nextId;
      var created := s.(nextId := id + 1, resources := s.resources + {id});
      if fault != NoFault then (created, StoreFailed)
      else
        match SlotOf(r)
        case None => (created, Created(id))
        case Some(slot) =>
          (created.(operations := created.operations[slot := Operation(r.fingerprint, id)]), Created(id))
  }

  /** `prior_agent_operation`, then replay or create. */
  function Handle(s: Store, r: Request, fault: Fault): (Store, Reply) {
    match SlotOf(r)
    case None => Create(s, r, fault)
    case Some(slot) =>
      if |slot.2| > MAX_KEY_CHARS then (s, BadRequest)
      else if slot !in s.operations then Create(s, r, fault)
      else
        var prior := s.operations[slot];
        if prior.fingerprint != r.fingerprint then (s, Conflict)
        else if prior.resultId !in s.resources then (s, NotFound)
        else (s, Replayed(prior.resultId))
  }

  class Bridge {
    var store: Store

    constructor ()
      ensures store == EMPTY
    {
      store := EMPTY;
    }

    method CreateResource(r: Request, fault: Fault) returns (reply: Reply)
      modifies this
      ensures (store, reply) == Handle(old(store), r, fault)
    {
      var key := EffectiveKey(r.key);
      if key.Some? {
        if |key.value| > MAX_KEY_CHARS {
          return BadRequest;
        }
        var slot := (r.caller, r.action, key.value);
        if slot in store.operations {
          var prior := store.operations[slot];
          if prior.fingerprint != r.fingerprint {
            return Conflict;
          }
          return if prior.resultId in store.resources then Replayed(prior.resultId) else NotFound;
        }
      }
      if fault == CreateFails {
        return StoreFailed;
      }
      var id := store.nextId;
      store := store.(nextId := id + 1, resources := store.resources + {id});
      if fault != NoFault {
        return StoreFailed;
      }
      if key.Some? {
        var slot := (r.caller, r.action, key.value);
        store := store.(operations := store.operations[slot := Operation(r.fingerprint, id)]);
      }
      return Created(id);
    }
  }

  // ---- Runs -----------------------------------------------------------------------------------------

  /** A request with its fault, or the deletion of a resource by someone else. */
  datatype Event = Submit(request: Request, fault: Fault) | Delete(id: nat)

  function Apply(s: Store, e: Event): Store {
    match e
    case Submit(r, fault) => Handle(s, r, fault).0
    case Delete(id) => s.(resources := s.resources - {id})
  }

  function After(events: seq<Event>): Store {
    if events == [] then EMPTY else Apply(After(events[..|events| - 1]), events[|events| - 1])
  }

  function ReplyAt(events: seq<Event>, i: nat): Reply
    requires i < |events| && events[i].Submit?
  {
    Handle(After(events[..i]), events[i].request, events[i].fault).1
  }

  lemma AfterStep(events: seq<Event>, k: nat)
    requires k < |events|
    ensures After(events[..k + 1]) == Apply(After(events[..k]), events[k])
  {
    assert events[..k + 1][..k] == events[..k];
  }

  /** What was recorded under a key stays recorded. */
  lemma {:induction false} OperationsPersist(events: seq<Event>, i: nat, j: nat, slot: Slot)
    requires i <= j <= |events| && slot in After(events[..i]).operations
    ensures slot in After(events[..j]).operations
    ensures After(events[..j]).operations[slot] == After(events[..i]).operations[slot]
    decreases j
  {
    if i < j {
      OperationsPersist(events, i, j - 1, slot);
      AfterStep(events, j - 1);
    }
  }

  /** A successful reply under a key names the recorded result. */
  lemma SuccessIsRecorded(events: seq<Event>, i: nat)
    requires i < |events| && events[i].Submit? && ReplyAt(events, i).Success()
    requires SlotOf(events[i].request).Some?
    ensures
      var slot := SlotOf(events[i].request).value;
      var after := After(events[..i + 1]);
      && slot in after.operations
      && after.operations[slot] == Operation(events[i].request.fingerprint, ReplyAt(events, i).id)
  {
    AfterStep(events, i);
  }

  /** In every run, all successful replies for one caller, action and trimmed key name the same result,
      and come from requests with the same inputs. */
  lemma OneResultPerKey(events: seq<Event>, i: nat, j: nat)
    requires i < j < |events| && events[i].Submit? && events[j].Submit?
    requires ReplyAt(events, i).Success() && ReplyAt(events, j).Success()
    requires SlotOf(events[i].request).Some? && SlotOf(events[i].request) == SlotOf(events[j].request)
    ensures ReplyAt(events, i).id == ReplyAt(events, j).id
    ensures events[i].request.fingerprint == events[j].request.fingerprint
    ensures ReplyAt(events, j).Replayed?
  {
    var slot := SlotOf(events[i].request).value;
    SuccessIsRecorded(events, i);
    OperationsPersist(events, i + 1, j, slot);
    SuccessIsRecorded(events, j);
    AfterStep(events, j);
  }

  /** A key used with other inputs changes nothing, whatever would fail in the store. */
  lemma OtherInputsChangeNothing(events: seq<Event>, i: nat, j: nat)
    requires i < j < |events| && events[i].Submit? && events[j].Submit?
    requires ReplyAt(events, i).Success()
    requires SlotOf(events[i].request).Some? && SlotOf(events[i].request) == SlotOf(events[j].request)
    requires events[i].request.fingerprint != events[j].request.fingerprint
    ensures After(events[..j + 1]) == After(events[..j])
    ensures ReplyAt(events, j) == Conflict
  {
    var slot := SlotOf(events[i].request).value;
    SuccessIsRecorded(events, i);
    OperationsPersist(events, i + 1, j, slot);
    AfterStep(events, j);
    assert |slot.2| <= MAX_KEY_CHARS;
  }

  lemma {:induction false} IdsGrow(events: seq<Event>, i: nat, j: nat)
    requires i <= j <= |events|
    ensures After(events[..i]).nextId <= After(events[..j]).nextId
    decreases j
  {
    if i < j {
      IdsGrow(events, i, j - 1);
      AfterStep(events, j - 1);
    }
  }

  /** Two replies that report a creation never name the same resource. */
  lemma CreatedOnce(events: seq<Event>, i: nat, j: nat)
    requires i < j < |events| && events[i].Submit? && events[j].Submit?
    requires ReplyAt(events, i).Created? && ReplyAt(events, j).Created?
    ensures ReplyAt(events, i).id != ReplyAt(events, j).id
  {
    AfterStep(events, i);
    IdsGrow(events, i + 1, j);
  }

  // ---- The limit --------------------------------------------------------------------------------------

  /** The `i`-th event brings a new resource into being, whatever it replies. */
  predicate Creates(events: seq<Event>, i: nat)
    requires i < |events|
  {
    events[i].Submit? && After(events[..i + 1]).nextId > After(events[..i]).nextId
  }

  /** A second resource under one key, in any run, means that the store failed between the first creation
      and its record. */
  lemma DuplicateMeansLostRecord(events: seq<Event>, i: nat, j: nat)
    requires i < j < |events| && Creates(events, i) && Creates(events, j)
    requires SlotOf(events[i].request).Some? && SlotOf(events[i].request) == SlotOf(events[j].request)
    ensures events[i].fault in {SetupFails, RecordFails} && ReplyAt(events, i) == StoreFailed
  {
    AfterStep(events, i);
    AfterStep(events, j);
    if ReplyAt(events, i).Success() {
      var slot := SlotOf(events[i].request).value;
      SuccessIsRecorded(events, i);
      OperationsPersist(events, i + 1, j, slot);
      assert false;
    }
  }

  /** And so it happens: when setting up or recording fails, a retry with the same key and inputs creates
      another resource beside the first. */
  lemma RetryCreatesAgain(r: Request, fault: Fault)
    requires fault in {SetupFails, RecordFails}
    requires SlotOf(r).Some? && |SlotOf(r).value.2| <= MAX_KEY_CHARS
    ensures
      var events := [Submit(r, fault), Submit(r, NoFault)];
      && Creates(events, 0) && Creates(events, 1)
      && ReplyAt(events, 0) == StoreFailed && ReplyAt(events, 1) == Created(1)
      && After(events).resources == {0, 1}
  {
    var events := [Submit(r, fault), Submit(r, NoFault)];
    AfterStep(events, 0);
    AfterStep(events, 1);
    assert events[..0] == [] && events[..2] == events;
  }
}
