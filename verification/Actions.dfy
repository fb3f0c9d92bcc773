/** Command actions: ordered candidate state shared by live execution and replay. Every operation keeps
    every command's history lawful, and a refused operation changes no command. */
module Actions {
  import opened ActionHistory
  import opened Ids
  import opened Time

  datatype Kind = Command | Cancel | Event

  /** A message; `cancels` is the command a cancel envelope names. */
  datatype Message = Message(
    id: string, kind: Kind, schemaId: string, sourceKind: string, source: string, origin: ItemRef,
    cancels: Option<string>)

  datatype Delivery = Delivery(message: Message, recipient: string, dispatchRef: ItemRef)

  datatype ActionState = ActionState(
    status: Status, target: string, sourceKind: string, source: string, head: Option<ItemRef>,
    history: seq<Entry>, origin: ItemRef)

  datatype Code =
    | ActionUnknown | ActionDuplicate | ActionSubmit | ActionDispatch | ActionTarget | ActionHead
    | ActionCancelHead | ActionTransition | ActionResult | ActionFeedback | ActionFeedbackSchema
    | CancelDecision | CancelStatus

  datatype Outcome = Done(entry: Entry) | Refused(code: Code)

  /** Result and feedback schemas by message schema, and the registry's verdict on a payload. */
  datatype Registry = Registry(
    resultSchemas: map<string, string>, feedbackSchemas: map<string, string>, accepts: (string, string) -> bool)

  class Actions {
    const registry: Registry
    const full: bool
    var states: map<string, ActionState>
    var schemas: map<string, string>
    var dispatches: map<string, Delivery>
    var cancelHeads: map<string, ItemRef>
    var decisions: set<string>
    ghost var decidedAt: map<string, (string, nat)>

    constructor (registry: Registry, full: bool)
      ensures Valid() && states == map[] && this.full == full && this.registry == registry
    {
      this.registry, this.full := registry, full;
      states, schemas, dispatches, cancelHeads, decisions := map[], map[], map[], map[], {};
      decidedAt := map[];
    }

    /** What a command's fields say. */
    static function SummaryOf(state: ActionState, cancelHeads: map<string, ItemRef>, id: string): Summary {
      Summary(state.status, state.head, if id in cancelHeads then Some(cancelHeads[id]) else None)
    }

    /** Every command's fields are what its history replays to. */
    static ghost predicate Lawful(states: map<string, ActionState>, cancelHeads: map<string, ItemRef>) {
      forall id :: id in states ==> Replay(states[id].history) == Some(SummaryOf(states[id], cancelHeads, id))
    }

    /** A decision entry answers a cancel dispatched to the command's target that names the command, and
        `decidedAt` says where each cancel was decided, so no cancel is decided twice. */
    static ghost predicate DecidedOnce(states: map<string, ActionState>, dispatches: map<string, Delivery>,
                                       decidedAt: map<string, (string, nat)>)
    {
      forall id, i: nat ::
        id in states && i < |states[id].history| && states[id].history[i].DecisionEntry? ==>
          var cancelId := states[id].history[i].cancelId;
          && cancelId in decidedAt && decidedAt[cancelId] == (id, i)
          && cancelId in dispatches && Names(dispatches[cancelId], id, states[id].target)
    }

    static predicate Names(cancel: Delivery, id: string, target: string) {
      cancel.message.kind == Cancel && cancel.message.cancels == Some(id) && cancel.recipient == target
    }

    /** The indexes speak of known commands, and commands were dispatched to their targets. */
    static ghost predicate Indexed(states: map<string, ActionState>, schemas: map<string, string>,
                                   dispatches: map<string, Delivery>, cancelHeads: map<string, ItemRef>)
    {
      && cancelHeads.Keys <= states.Keys
      && (forall id :: id in states && states[id].status != Pending ==> id in schemas)
      && (forall id :: id in dispatches && dispatches[id].message.kind == Command ==>
            id in states && dispatches[id].recipient == states[id].target)
    }

    static ghost predicate Sound(states: map<string, ActionState>, schemas: map<string, string>,
                                 dispatches: map<string, Delivery>, cancelHeads: map<string, ItemRef>,
                                 decisions: set<string>, decidedAt: map<string, (string, nat)>)
    {
      && Lawful(states, cancelHeads)
      && Indexed(states, schemas, dispatches, cancelHeads)
      && decisions == decidedAt.Keys
      && DecidedOnce(states, dispatches, decidedAt)
    }

    ghost predicate Valid()
      reads this
    {
      Sound(states, schemas, dispatches, cancelHeads, decisions, decidedAt)
    }

    /** What every operation keeps of the commands already known: identity, history as a prefix, and the
        status and head of the finished ones. */
    static ghost predicate Continues(before: map<string, ActionState>, after: map<string, ActionState>) {
      forall id :: id in before ==>
        && id in after
        && after[id].target == before[id].target && after[id].origin == before[id].origin
        && before[id].history <= after[id].history
        && (Terminal(before[id].status) ==> after[id].status == before[id].status && after[id].head == before[id].head)
    }

    twostate predicate Progressed()
      reads this
    {
      && Continues(old(states), states)
      && old(decisions) <= decisions
      && (forall m :: m in old(dispatches) ==> m in dispatches && dispatches[m] == old(dispatches[m]))
    }

    /** Install a reservation once, or check that it is the identical one. */
    method Reserve(id: string, target: string, sourceKind: string, source: string, origin: ItemRef)
      returns (refusal: Option<Code>)
      requires Valid()
      modifies this`states
      ensures Valid() && Progressed()
      ensures id !in old(states) ==>
        refusal.None? && states == old(states)[id := ActionState(Pending, target, sourceKind, source, None, [], origin)]
      ensures id in old(states) ==>
        && states == old(states)
        && (refusal.None? <==>
              && states[id].status == Pending && states[id].target == target
              && states[id].sourceKind == sourceKind && states[id].source == source && states[id].origin == origin)
      ensures refusal.Some? ==> refusal.value == ActionDuplicate
    {
      if id in states {
        var s := states[id];
        if s.status != Pending || s.target != target || s.sourceKind != sourceKind || s.source != source
          || s.origin != origin
        {
          return Some(ActionDuplicate);
        }
        return None;
      }
      states := states[id := ActionState(Pending, target, sourceKind, source, None, [], origin)];
      refusal := None;
    }

    /** Record an authorized delivery once. */
    method RecordDispatch(delivery: Delivery) returns (refusal: Option<Code>)
      requires Valid()
      modifies this`dispatches
      ensures Valid() && Progressed()
      ensures refusal.None? ==>
        dispatches == if delivery.message.kind == Event then old(dispatches)
          else old(dispatches)[delivery.message.id := delivery]
      ensures refusal.Some? ==> dispatches == old(dispatches)
      ensures refusal.None? <==>
        || delivery.message.kind == Event
        || (delivery.message.id !in old(dispatches)
            && (delivery.message.kind == Command ==>
                  delivery.message.id in states && states[delivery.message.id].target == delivery.recipient))
    {
      var message := delivery.message;
      if message.kind == Event {
        return None;
      }
      if message.id in dispatches {
        return Some(ActionDispatch);
      }
      if message.kind == Command {
        if message.id !in states {
          return Some(ActionUnknown);
        }
        if states[message.id].target != delivery.recipient {
          return Some(ActionTarget);
        }
      }
      dispatches := dispatches[message.id := delivery];
      refusal := None;
    }

    /** Learn an invocation's inbox. */
    method Learn(inbox: seq<Delivery>) returns (refusal: Option<Code>)
      requires Valid()
      modifies this`dispatches
      ensures Valid() && Progressed()
      ensures refusal.None? ==> forall k :: 0 <= k < |inbox| && inbox[k].message.kind != Event ==>
        inbox[k].message.id in dispatches
      ensures inbox == [] ==> refusal.None? && dispatches == old(dispatches)
    {
      refusal := None;
      for k := 0 to |inbox|
        invariant Valid() && Progressed()
        invariant forall j :: 0 <= j < k && inbox[j].message.kind != Event ==> inbox[j].message.id in dispatches
        invariant refusal.None? && (k == 0 ==> dispatches == old(dispatches))
      {
        if inbox[k].message.kind != Event && inbox[k].message.id !in dispatches {
          refusal := RecordDispatch(inbox[k]);
          if refusal.Some? {
            return;
          }
        }
      }
    }

    static lemma DecidedMore(states: map<string, ActionState>, dispatches: map<string, Delivery>,
                             decidedAt: map<string, (string, nat)>, id: string, entry: Entry, after: ActionState)
      requires DecidedOnce(states, dispatches, decidedAt) && id in states
      requires after.history == states[id].history + [entry] && after.target == states[id].target
      requires entry.DecisionEntry? ==>
        entry.cancelId !in decidedAt && entry.cancelId in dispatches
          && Names(dispatches[entry.cancelId], id, after.target)
      ensures DecidedOnce(states[id := after], dispatches,
        if entry.DecisionEntry? then decidedAt[entry.cancelId := (id, |states[id].history|)] else decidedAt)
    {
      var n := |states[id].history|;
      assert forall i: nat :: i < n ==> after.history[i] == states[id].history[i];
      assert after.history[n] == entry;
    }

    static function Extended(state: ActionState, entry: Entry, s: Summary): ActionState {
      state.(status := s.status, head := s.head, history := state.history + [entry])
    }

    static lemma StepFacts(before: Summary, entry: Entry, after: Summary)
      requires Step(before, entry) == Some(after)
      ensures Terminal(before.status) ==> after.status == before.status && after.head == before.head
      ensures after.cancelHead.None? ==> before.cancelHead.None?
      ensures after.status != Pending
    {
    }

    static lemma LawfulMore(states: map<string, ActionState>, cancelHeads: map<string, ItemRef>, id: string,
                            entry: Entry, s: Summary)
      requires Lawful(states, cancelHeads) && id in states
      requires Step(SummaryOf(states[id], cancelHeads, id), entry) == Some(s)
      ensures Lawful(states[id := Extended(states[id], entry, s)],
                     if s.cancelHead.Some? then cancelHeads[id := s.cancelHead.value] else cancelHeads)
      ensures Continues(states, states[id := Extended(states[id], entry, s)])
    {
      ReplayAppend(states[id].history, entry);
      StepFacts(SummaryOf(states[id], cancelHeads, id), entry, s);
    }

    static lemma IndexedMore(states: map<string, ActionState>, schemas: map<string, string>,
                             dispatches: map<string, Delivery>,
                             cancelHeads: map<string, ItemRef>, id: string, entry: Entry, s: Summary)
      requires Indexed(states, schemas, dispatches, cancelHeads) && id in states && id in schemas
      ensures Indexed(states[id := Extended(states[id], entry, s)], schemas, dispatches,
                      if s.cancelHead.Some? then cancelHeads[id := s.cancelHead.value] else cancelHeads)
    {
    }

    static lemma SoundMore(states: map<string, ActionState>, schemas: map<string, string>,
                           dispatches: map<string, Delivery>, cancelHeads: map<string, ItemRef>, decisions: set<string>,
                           decidedAt: map<string, (string, nat)>, id: string, entry: Entry, s: Summary,
                           heads: map<string, ItemRef>, decided: set<string>, place: map<string, (string, nat)>)
      requires Sound(states, schemas, dispatches, cancelHeads, decisions, decidedAt) && id in states && id in schemas
      requires Step(SummaryOf(states[id], cancelHeads, id), entry) == Some(s)
      requires entry.DecisionEntry? ==>
        entry.cancelId !in decisions && entry.cancelId in dispatches
          && Names(dispatches[entry.cancelId], id, states[id].target)
      requires heads == if s.cancelHead.Some? then cancelHeads[id := s.cancelHead.value] else cancelHeads
      requires decided == if entry.DecisionEntry? then decisions + {entry.cancelId} else decisions
      requires place ==
        if entry.DecisionEntry? then decidedAt[entry.cancelId := (id, |states[id].history|)] else decidedAt
      ensures Sound(states[id := Extended(states[id], entry, s)], schemas, dispatches, heads, decided, place)
      ensures Continues(states, states[id := Extended(states[id], entry, s)])
    {
      var after := Extended(states[id], entry, s);
      LawfulMore(states, cancelHeads, id, entry, s);
      IndexedMore(states, schemas, dispatches, cancelHeads, id, entry, s);
      DecidedMore(states, dispatches, decidedAt, id, entry, after);
      assert place.Keys == decided;
    }

    /** Take over what an entry makes of the commands. */
    method Install(next: map<string, ActionState>, heads: map<string, ItemRef>, decided: set<string>,
                   ghost place: map<string, (string, nat)>)
      requires Sound(next, schemas, dispatches, heads, decided, place)
      requires Continues(states, next) && decisions <= decided
      modifies this`states, this`cancelHeads, this`decisions, this`decidedAt
      ensures Valid() && Progressed() && states == next && decisions == decided && cancelHeads == heads
    {
      states, cancelHeads, decisions, decidedAt := next, heads, decided, place;
    }

    /** Append one lawful entry to one command. */
    method Append(id: string, entry: Entry, s: Summary)
      requires Valid() && id in states && id in schemas
      requires Step(SummaryOf(states[id], cancelHeads, id), entry) == Some(s)
      requires entry.DecisionEntry? ==>
        entry.cancelId !in decisions && entry.cancelId in dispatches
          && Names(dispatches[entry.cancelId], id, states[id].target)
      modifies this`states, this`cancelHeads, this`decisions, this`decidedAt
      ensures Valid() && Progressed()
      ensures states == old(states)[id := Extended(old(states[id]), entry, s)]
      ensures decisions == old(decisions) + (if entry.DecisionEntry? then {entry.cancelId} else {})
    {
      var after := Extended(states[id], entry, s);
      var heads := if s.cancelHead.Some? then cancelHeads[id := s.cancelHead.value] else cancelHeads;
      ghost var place := decidedAt;
      var decided := decisions;
      if entry.DecisionEntry? {
        decided, place := decisions + {entry.cancelId}, decidedAt[entry.cancelId := (id, |states[id].history|)];
      }
      SoundMore(states, schemas, dispatches, cancelHeads, decisions, decidedAt, id, entry, s, heads, decided, place);
      Install(states[id := after], heads, decided, place);
    }

    /** Why a decision by `partition` on a command may not be made, citing the receipt head and the dispatch
        of `messageId`. */
    function Unauthorized(partition: string, id: string, messageId: string, causes: set<ItemRef>): Option<Code>
      reads this
    {
      if id !in states then Some(ActionUnknown)
      else if states[id].target != partition then Some(ActionTarget)
      else if states[id].head.None? || (full && states[id].head.value !in causes) then Some(ActionHead)
      else if messageId !in dispatches || dispatches[messageId].recipient != partition
              || (full && dispatches[messageId].dispatchRef !in causes) then Some(ActionDispatch)
      else None
    }

    /** A decision on a command is the target's, cites its receipt head and the delivery that asks for it, which was
        the target's too; citations are checked in full candidates only. */
    lemma AuthorizedExactly(partition: string, id: string, messageId: string, causes: set<ItemRef>)
      ensures Unauthorized(partition, id, messageId, causes).None? <==>
        && id in states && states[id].target == partition
        && states[id].head.Some? && (full ==> states[id].head.value in causes)
        && messageId in dispatches && dispatches[messageId].recipient == partition
        && (full ==> dispatches[messageId].dispatchRef in causes)
    {
    }

    /** Submission creates the submitted status together with its receipt. */
    method Submit(message: Message, ref: ItemRef) returns (r: Outcome)
      requires Valid()
      modifies this`states, this`schemas, this`cancelHeads, this`decisions, this`decidedAt
      ensures Valid() && Progressed()
      ensures r.Done? <==>
        && message.id in old(states) && message.kind == Command
        && old(states[message.id]).status == Pending
        && old(states[message.id]).sourceKind == message.sourceKind && old(states[message.id]).source == message.source
      ensures r.Done? ==>
        && r.entry == ReceiptEntry(Submitted, ref, None)
        && states == old(states)[message.id :=
             old(states[message.id]).(status := Submitted, head := Some(ref), history := [r.entry])]
        && schemas == old(schemas)[message.id := message.schemaId]
      ensures r.Refused? ==> states == old(states) && schemas == old(schemas)
    {
      if message.id !in states {
        return Refused(ActionUnknown);
      }
      var state := states[message.id];
      if state.status != Pending || message.kind != Command || state.sourceKind != message.sourceKind
        || state.source != message.source
      {
        return Refused(ActionSubmit);
      }
      var entry := ReceiptEntry(Submitted, ref, None);
      PendingIsEmpty(state.history);
      schemas := schemas[message.id := message.schemaId];
      Append(message.id, entry, SummaryOf(state, cancelHeads, message.id).(status := Submitted, head := Some(ref)));
      r := Done(entry);
    }

    static lemma PendingIsEmpty(history: seq<Entry>)
      requires Replay(history).Some? && Replay(history).value.status == Pending
      ensures history == []
    {
      assert history[..|history|] == history;
      if history != [] {
        OnlyFirstPending(history, |history|);
      }
    }

    /** A result needs a result schema that accepts it; success with a result schema needs a result. */
    static predicate ResultAdmitted(registry: Registry, schema: string, status: Status, result: Option<string>)
      ensures ResultAdmitted(registry, schema, status, result) <==>
        if schema in registry.resultSchemas then
          (result.None? && status != Succeeded)
            || registry.accepts(registry.resultSchemas[schema], result.GetOr("null"))
        else result.None?
    {
      result.Some? || (status == Succeeded && schema in registry.resultSchemas) ==>
        schema in registry.resultSchemas && registry.accepts(registry.resultSchemas[schema], result.GetOr("null"))
    }

    /** One ordered target transition: a legal successor other than canceling, by the command's target, citing
        its head and dispatch; while canceling, completion rests on the accepted cancel decision instead. */
    method Receipt(partition: string, id: string, status: Status, result: Option<string>, ref: ItemRef,
                   inbox: seq<Delivery>, causes: set<ItemRef>)
      returns (r: Outcome)
      requires Valid()
      modifies this`states, this`dispatches, this`cancelHeads, this`decisions, this`decidedAt
      ensures Valid() && Progressed()
      ensures r.Done? ==>
        && id in old(states) && old(states[id]).target == partition
        && status in Transitions(old(states[id]).status) && status != Canceling
        && (full ==> old(states[id]).head.Some? && old(states[id]).head.value in causes)
        && id in schemas && ResultAdmitted(registry, schemas[id], status, result)
        && (if old(states[id]).status == Canceling
            then id in old(cancelHeads) && old(states[id]).head == Some(old(cancelHeads[id]))
            else (id in dispatches && dispatches[id].recipient == partition
                  && (full ==> dispatches[id].dispatchRef in causes)))
        && r.entry == ReceiptEntry(status, ref, result)
        && states == old(states)[id :=
             old(states[id]).(status := status, head := Some(ref), history := old(states[id]).history + [r.entry])]
      ensures r.Refused? ==> states == old(states)
      ensures (inbox == [] && old(
        && id in states && states[id].target == partition
        && status in Transitions(states[id].status) && status != Canceling
        && (if states[id].status == Canceling then states[id].head.Some? && (full ==> states[id].head.value in causes)
            else Unauthorized(partition, id, id, causes).None?)
        && ResultAdmitted(registry, schemas[id], status, result))) ==> r.Done?
      ensures decisions == old(decisions)
    {
      var refusal := Learn(inbox);
      if refusal.Some? {
        return Refused(refusal.value);
      }
      if id !in states {
        return Refused(ActionUnknown);
      }
      var state := states[id];
      CancelingHeads(id);
      if state.status == Canceling {
        if state.target != partition || (full && (state.head.None? || state.head.value !in causes))
           || (if id in cancelHeads then Some(cancelHeads[id]) else None) != state.head {
          return Refused(ActionCancelHead);
        }
      } else {
        refusal := Unauthorized(partition, id, id, causes);
        if refusal.Some? {
          return Refused(refusal.value);
        }
      }
      if status !in Transitions(state.status) || status == Canceling {
        return Refused(ActionTransition);
      }
      if !ResultAdmitted(registry, schemas[id], status, result) {
        return Refused(ActionResult);
      }
      var entry := ReceiptEntry(status, ref, result);
      Append(id, entry, SummaryOf(state, cancelHeads, id).(status := status, head := Some(ref)));
      r := Done(entry);
    }

    /** While canceling, the head is the recorded cancel head. */
    lemma CancelingHeads(id: string)
      requires Valid() && id in states
      ensures states[id].status == Canceling ==> id in cancelHeads && states[id].head == Some(cancelHeads[id])
      ensures states[id].status == Canceled ==> id in cancelHeads && AcceptedDecisions(states[id].history) == 1
    {
      CancellationAccepted(states[id].history);
    }

    /** Typed progress: the head and the status stay. */
    method Feedback(partition: string, id: string, payload: string, ref: ItemRef, inbox: seq<Delivery>,
                    causes: set<ItemRef>)
      returns (r: Outcome)
      requires Valid()
      modifies this`states, this`dispatches, this`cancelHeads, this`decisions, this`decidedAt
      ensures Valid() && Progressed()
      ensures r.Done? ==>
        && id in old(states) && old(states[id]).target == partition && old(states[id]).status in {Executing, Canceling}
        && id in schemas && schemas[id] in registry.feedbackSchemas
        && registry.accepts(registry.feedbackSchemas[schemas[id]], payload)
        && old(states[id]).head.Some? && (full ==> old(states[id]).head.value in causes)
        && id in dispatches && dispatches[id].recipient == partition && (full ==> dispatches[id].dispatchRef in causes)
        && r.entry == FeedbackEntry(old(states[id]).status, ref, payload)
        && states == old(states)[id := old(states[id]).(history := old(states[id]).history + [r.entry])]
      ensures r.Refused? ==> states == old(states)
      ensures (inbox == [] && old(
        && Unauthorized(partition, id, id, causes).None? && states[id].status in {Executing, Canceling}
        && schemas[id] in registry.feedbackSchemas
        && registry.accepts(registry.feedbackSchemas[schemas[id]], payload))) ==> r.Done?
      ensures decisions == old(decisions)
    {
      var refusal := Learn(inbox);
      if refusal.Some? {
        return Refused(refusal.value);
      }
      refusal := Unauthorized(partition, id, id, causes);
      if refusal.Some? {
        return Refused(refusal.value);
      }
      var state := states[id];
      if state.status !in {Executing, Canceling} {
        return Refused(ActionFeedback);
      }
      var schema := schemas[id];
      if schema !in registry.feedbackSchemas || !registry.accepts(registry.feedbackSchemas[schema], payload) {
        return Refused(ActionFeedbackSchema);
      }
      var entry := FeedbackEntry(state.status, ref, payload);
      Append(id, entry, SummaryOf(state, cancelHeads, id));
      r := Done(entry);
    }

    /** A target's answer to a dispatched cancel: each cancel is answered once, and only an accepted or
        executing command can be accepted for cancellation. */
    method Decide(partition: string, id: string, cancelId: string, accepted: bool, ref: ItemRef,
                  inbox: seq<Delivery>, causes: set<ItemRef>)
      returns (r: Outcome)
      requires Valid()
      modifies this`states, this`dispatches, this`cancelHeads, this`decisions, this`decidedAt
      ensures Valid() && Progressed()
      ensures r.Done? ==>
        && id in old(states) && old(states[id]).target == partition
        && cancelId !in old(decisions) && decisions == old(decisions) + {cancelId}
        && cancelId in dispatches && dispatches[cancelId].recipient == partition
        && dispatches[cancelId].message.kind == Cancel && dispatches[cancelId].message.cancels == Some(id)
        && old(states[id]).head.Some?
        && (full ==> old(states[id]).head.value in causes && dispatches[cancelId].dispatchRef in causes)
        && (accepted ==> old(states[id]).status in {Accepted, Executing} && states[id].status == Canceling)
        && states == old(states)[id := old(states[id]).(
             status := if accepted then Canceling else old(states[id]).status,
             head := if accepted then Some(ref) else old(states[id]).head,
             history := old(states[id]).history + [r.entry])]
        && r.entry == DecisionEntry(cancelId, accepted, states[id].status, ref)
      ensures r.Refused? ==> states == old(states) && decisions == old(decisions)
      ensures (inbox == [] && old(
        && Unauthorized(partition, id, cancelId, causes).None?
        && Names(dispatches[cancelId], id, partition) && cancelId !in decisions
        && (accepted ==> states[id].status in {Accepted, Executing}))) ==> r.Done?
    {
      var refusal := Learn(inbox);
      if refusal.Some? {
        return Refused(refusal.value);
      }
      refusal := Unauthorized(partition, id, cancelId, causes);
      if refusal.Some? {
        return Refused(refusal.value);
      }
      var state, cancel := states[id], dispatches[cancelId].message;
      if cancel.kind != Cancel || cancel.cancels != Some(id) || cancelId in decisions {
        return Refused(CancelDecision);
      }
      if accepted && state.status !in {Accepted, Executing} {
        return Refused(CancelStatus);
      }
      HeadsArePastPending(id);
      var status := if accepted then Canceling else state.status;
      var entry := DecisionEntry(cancelId, accepted, status, ref);
      var now := SummaryOf(state, cancelHeads, id);
      Append(id, entry, if accepted then Summary(Canceling, Some(ref), Some(ref)) else now);
      r := Done(entry);
    }

    lemma HeadsArePastPending(id: string)
      requires Valid() && id in states && states[id].head.Some?
      ensures states[id].status != Pending
    {
      if states[id].status == Pending {
        PendingIsEmpty(states[id].history);
      }
    }

    /** Detach a candidate: the same actions, and nothing shared. */
    method Clone() returns (other: Actions)
      requires Valid()
      ensures fresh(other) && other.Valid()
      ensures other.states == states && other.dispatches == dispatches && other.cancelHeads == cancelHeads
      ensures other.decisions == decisions && other.schemas == schemas && other.full == full
        && other.registry == registry
    {
      other := new Actions(registry, full);
      other.states, other.schemas, other.dispatches, other.cancelHeads := states, schemas, dispatches, cancelHeads;
      other.decisions, other.decidedAt := decisions, decidedAt;
    }
  }
}
