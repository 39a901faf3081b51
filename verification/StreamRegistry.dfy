/**
 electron/main.js: the registry of running chat streams. Each window (contents id) has a registry from tab
 key to stream entry; a new stream supersedes the one in its slot, an abort detaches one, an idle timer may
 abort one, and every handler cleans up when it ends. Handlers keep the registry object they started with,
 which may have been dropped meanwhile. Everything between two awaits is one atomic step.
 JavaScript's objects are named here by their place in a growing list: registries and entries are never reused.
 */
module StreamRegistry {
  import opened Common

  type StreamId = nat
  type RegistryId = nat

  datatype Phase = Fetching | Reading | Finished

  /** An entry with the local state of its handler; `armed` says that its inactivity timer is pending. */
  datatype Stream = Stream(contents: Option<int>, tab: string, registry: RegistryId, requestId: string,
                           phase: Phase, aborted: bool, timedOut: bool, armed: bool)

  /** A Map from tab key to entry; `order` is its iteration order. */
  datatype Registry = Registry(slots: map<string, StreamId>, order: seq<string>)

  datatype State = State(active: map<int, RegistryId>, registries: seq<Registry>, streams: seq<Stream>)

  const INITIAL := State(map[], [], [])

  // ---- Map operations ----

  function SetSlot(r: Registry, tab: string, e: StreamId): Registry {
    Registry(r.slots[tab := e], if tab in r.slots then r.order else r.order + [tab])
  }

  function Without(order: seq<string>, tab: string): seq<string> {
    if order == [] then []
    else Without(order[..|order| - 1], tab) + (if order[|order| - 1] == tab then [] else [order[|order| - 1]])
  }

  function DeleteSlot(r: Registry, tab: string): Registry {
    Registry(r.slots - {tab}, Without(r.order, tab))
  }

  /** registry.get(tab) */
  function Slot(s: State, r: RegistryId, tab: string): Option<StreamId> {
    if r < |s.registries| && tab in s.registries[r].slots then Some(s.registries[r].slots[tab]) else None
  }

  // ---- Steps ----

  /** ensureLlmStreamRegistry */
  function Ensure(s: State, c: int): State {
    if c in s.active then s
    else s.(registries := s.registries + [Registry(map[], [])], active := s.active[c := |s.registries|])
  }

  function Supersede(s: State, e: StreamId): State
    requires e < |s.streams|
  {
    s.(streams := s.streams[e := s.streams[e].(aborted := true, armed := false)])
  }

  /** Register a new entry in a registry that exists. */
  function Register(s: State, c: int, tab: string, requestId: string): State
    requires c in s.active && s.active[c] < |s.registries|
  {
    var r := s.active[c];
    State(s.active, s.registries[r := SetSlot(s.registries[r], tab, |s.streams|)],
          s.streams + [Stream(Some(c), tab, r, requestId, Fetching, false, false, false)])
  }

  function Start(s: State, contents: Option<int>, tab: string, requestId: string): State {
    if contents.None? then
      s.(streams := s.streams + [Stream(None, tab, 0, requestId, Fetching, false, false, false)])
    else
      var c := contents.value;
      var t := Ensure(s, c);
      if t.active[c] >= |t.registries| then s
      else
        var existing := Slot(t, t.active[c], tab);
        var u := if existing.Some? && existing.value < |t.streams| then Supersede(t, existing.value) else t;
        Register(u, c, tab, requestId)
  }

  function SetStream(s: State, e: StreamId, entry: Stream): State
    requires e < |s.streams|
  {
    s.(streams := s.streams[e := entry])
  }

  /** Remove a slot from a window's registry, and the registry when that leaves it empty. */
  function Drop(s: State, c: int, tab: string): State
    requires c in s.active && s.active[c] < |s.registries|
  {
    var r := s.active[c];
    var left := DeleteSlot(s.registries[r], tab);
    State(if left.slots == map[] then s.active - {c} else s.active, s.registries[r := left], s.streams)
  }

  /** detachLlmStream, once the timer is cleared */
  function Detach(s: State, c: int, tab: string, e: StreamId): State {
    if c in s.active && s.active[c] < |s.registries| && Slot(s, s.active[c], tab) == Some(e) then Drop(s, c, tab) else s
  }

  /** The `finally` block of the handler. */
  function Finish(s: State, e: StreamId): State
    requires e < |s.streams|
  {
    var entry := s.streams[e];
    var t := SetStream(s, e, entry.(phase := Finished, armed := false));
    if entry.contents.Some? && Slot(s, entry.registry, entry.tab) == Some(e)
    then Detach(t, entry.contents.value, entry.tab, e) else t
  }

  function FindByRequest(order: seq<string>, slots: map<string, StreamId>, streams: seq<Stream>, requestId: string)
    : Option<string>
  {
    if order == [] then None
    else if order[0] in slots && slots[order[0]] < |streams| && streams[slots[order[0]]].requestId == requestId
    then Some(order[0])
    else FindByRequest(order[1..], slots, streams, requestId)
  }

  /** Which slot an abort request means, if any. */
  function AbortTarget(registry: Registry, streams: seq<Stream>, tab: Option<string>, requestId: Option<string>)
    : Option<string>
  {
    if tab.Some? && tab.value in registry.slots then tab
    else if requestId.Some? then FindByRequest(registry.order, registry.slots, streams, requestId.value)
    else if |registry.slots| == 1 && registry.order != [] then Some(registry.order[0])
    else None
  }

  function Target(s: State, contents: Option<int>, tab: Option<string>, requestId: Option<string>): Option<string> {
    if contents.None? || contents.value !in s.active || s.active[contents.value] >= |s.registries| then None
    else AbortTarget(s.registries[s.active[contents.value]], s.streams, tab, requestId)
  }

  /** Abort the controller in a slot and detach its entry. */
  function AbortSlot(s: State, c: int, tab: string): State {
    if c !in s.active then s
    else
      var found := Slot(s, s.active[c], tab);
      if found.None? || found.value >= |s.streams| then s
      else Detach(Supersede(s, found.value), c, tab, found.value)
  }

  function Abort(s: State, contents: Option<int>, tab: Option<string>, requestId: Option<string>): State {
    var target := Target(s, contents, tab, requestId);
    if target.Some? && contents.Some? then AbortSlot(s, contents.value, target.value) else s
  }

  datatype Event =
    | StartEvent(contents: Option<int>, tab: string, requestId: string)
    | ResponseEvent(e: StreamId)     // the response is there: start the timer and read
    | ChunkEvent(e: StreamId)        // a chunk was read: restart the timer
    | TimeoutEvent(e: StreamId)      // the timer fires: abort the controller
    | EndEvent(e: StreamId)          // end of reply, bad response, or an exception
    | AbortEvent(from: Option<int>, tabId: Option<string>, request: Option<string>)

  /** Any event may come next; one that is not possible in s leaves s as it is. An aborted handler may still read on. */
  function Step(s: State, event: Event): State {
    match event
    case StartEvent(contents, tab, requestId) => Start(s, contents, tab, requestId)
    case ResponseEvent(e) =>
      if e < |s.streams| && s.streams[e].phase == Fetching
      then SetStream(s, e, s.streams[e].(phase := Reading, armed := true)) else s
    case ChunkEvent(e) =>
      if e < |s.streams| && s.streams[e].phase == Reading
      then SetStream(s, e, s.streams[e].(armed := true)) else s
    case TimeoutEvent(e) =>
      if e < |s.streams| && s.streams[e].armed
      then SetStream(s, e, s.streams[e].(armed := false, timedOut := true, aborted := true)) else s
    case EndEvent(e) => if e < |s.streams| && s.streams[e].phase != Finished then Finish(s, e) else s
    case AbortEvent(from, tabId, request) => Abort(s, from, tabId, request)
  }

  function Run(events: seq<Event>): State {
    if events == [] then INITIAL else Step(Run(events[..|events| - 1]), events[|events| - 1])
  }

  // ---- The invariant ----

  /** Registries in use exist and belong to one window each. */
  ghost predicate ActiveOk(s: State) {
    && (forall c :: c in s.active ==> s.active[c] < |s.registries|)
    && (forall c, d :: c in s.active && d in s.active && s.active[c] == s.active[d] ==> c == d)
  }

  /** e sits in slot (r, tab): it is unfinished, started there, and r is its window's registry. */
  ghost predicate Owns(s: State, r: RegistryId, tab: string, e: StreamId) {
    && e < |s.streams|
    && s.streams[e].contents.Some? && s.streams[e].tab == tab && s.streams[e].registry == r
    && s.streams[e].phase != Finished
    && s.streams[e].contents.value in s.active && s.active[s.streams[e].contents.value] == r
  }

  ghost predicate SlotsOwned(s: State) {
    forall r: RegistryId, tab: string :: Slot(s, r, tab).Some? ==> Owns(s, r, tab, Slot(s, r, tab).value)
  }

  /** Running and not aborted. */
  predicate Live(s: State, e: StreamId) {
    e < |s.streams| && s.streams[e].phase != Finished && !s.streams[e].aborted
  }

  ghost predicate LiveRegistered(s: State) {
    forall e: StreamId :: Live(s, e) && s.streams[e].contents.Some? ==>
      Slot(s, s.streams[e].registry, s.streams[e].tab) == Some(e)
  }

  ghost predicate TimersOk(s: State) {
    forall e: StreamId :: e < |s.streams| && s.streams[e].armed ==> s.streams[e].phase != Finished
  }

  ghost predicate Core(s: State) {
    ActiveOk(s) && SlotsOwned(s) && LiveRegistered(s) && TimersOk(s)
  }

  /** No window keeps an empty registry. */
  ghost predicate NoneEmpty(s: State) {
    forall c :: c in s.active && s.active[c] < |s.registries| ==> s.registries[s.active[c]].slots != map[]
  }

  /** The iteration order of each registry lists its keys. */
  ghost predicate OrdersOk(s: State) {
    forall r :: 0 <= r < |s.registries| ==> OrderOk(s.registries[r])
  }

  ghost predicate OrderOk(r: Registry) {
    (forall tab :: tab in r.slots ==> tab in r.order) && (forall tab :: tab in r.order ==> tab in r.slots)
  }

  ghost predicate Inv(s: State) {
    Core(s) && NoneEmpty(s) && OrdersOk(s)
  }

  // ---- Steps that only touch an entry ----

  /** Changing an unfinished entry without moving it, and without reviving it. */
  ghost predicate SameEntry(before: Stream, after: Stream) {
    && after.contents == before.contents && after.tab == before.tab && after.registry == before.registry
    && after.phase != Finished && before.phase != Finished && (before.aborted ==> after.aborted)
  }

  lemma SetStreamKeepsCore(s: State, e: StreamId, entry: Stream)
    requires Core(s) && e < |s.streams| && SameEntry(s.streams[e], entry)
    ensures Core(SetStream(s, e, entry))
  {
    var t := SetStream(s, e, entry);
    forall r: RegistryId, tab: string | Slot(t, r, tab).Some? ensures Owns(t, r, tab, Slot(t, r, tab).value) {
      assert Slot(s, r, tab) == Slot(t, r, tab);
      assert Owns(s, r, tab, Slot(s, r, tab).value);
    }
    forall x: StreamId | Live(t, x) && t.streams[x].contents.Some?
      ensures Slot(t, t.streams[x].registry, t.streams[x].tab) == Some(x)
    {
      assert Live(s, x);
    }
  }

  // ---- Start ----

  lemma EnsureKeepsCore(s: State, c: int)
    requires Core(s)
    ensures Core(Ensure(s, c)) && c in Ensure(s, c).active
    ensures Ensure(s, c).streams == s.streams
    ensures forall r: RegistryId, tab: string :: Slot(Ensure(s, c), r, tab) == Slot(s, r, tab)
  {
    var t := Ensure(s, c);
    forall r: RegistryId, tab: string | Slot(t, r, tab).Some? ensures Owns(t, r, tab, Slot(t, r, tab).value) {
      assert Slot(s, r, tab) == Slot(t, r, tab);
      assert Owns(s, r, tab, Slot(s, r, tab).value);
    }
    forall x: StreamId | Live(t, x) && t.streams[x].contents.Some?
      ensures Slot(t, t.streams[x].registry, t.streams[x].tab) == Some(x)
    {
      assert Live(s, x);
    }
  }

  /** A slot may be taken once the entry in it is aborted. */
  lemma RegisterKeepsCore(s: State, c: int, tab: string, requestId: string)
    requires Core(s) && c in s.active
    requires Slot(s, s.active[c], tab).Some? ==> !Live(s, Slot(s, s.active[c], tab).value)
    ensures Core(Register(s, c, tab, requestId))
    ensures Slot(Register(s, c, tab, requestId), s.active[c], tab) == Some(|s.streams|)
  {
    var t, r := Register(s, c, tab, requestId), s.active[c];
    forall x: RegistryId, k: string
      ensures Slot(t, x, k) == if x == r && k == tab then Some(|s.streams|) else Slot(s, x, k)
    {
    }
    forall x: RegistryId, k: string | Slot(t, x, k).Some? ensures Owns(t, x, k, Slot(t, x, k).value) {
      if x != r || k != tab {
        assert Owns(s, x, k, Slot(s, x, k).value);
      }
    }
    forall x: StreamId | Live(t, x) && t.streams[x].contents.Some?
      ensures Slot(t, t.streams[x].registry, t.streams[x].tab) == Some(x)
    {
      assert x < |s.streams| ==> Live(s, x);
    }
  }

  lemma StartKeepsCore(s: State, c: int, tab: string, requestId: string)
    requires Core(s)
    ensures var t := Start(s, Some(c), tab, requestId);
            && Core(t) && |t.streams| == |s.streams| + 1 && Live(t, |s.streams|)
            && c in t.active && Slot(t, t.active[c], tab) == Some(|s.streams|)
  {
    var t := Ensure(s, c);
    EnsureKeepsCore(s, c);
    var existing := Slot(t, t.active[c], tab);
    if existing.Some? {
      assert Owns(t, t.active[c], tab, existing.value);
      SetStreamKeepsCore(t, existing.value, t.streams[existing.value].(aborted := true, armed := false));
      var u := Supersede(t, existing.value);
      assert Slot(u, u.active[c], tab) == existing;
      RegisterKeepsCore(u, c, tab, requestId);
    } else {
      RegisterKeepsCore(t, c, tab, requestId);
    }
  }

  lemma StartKeepsRest(s: State, c: int, tab: string, requestId: string)
    requires Inv(s)
    ensures NoneEmpty(Start(s, Some(c), tab, requestId)) && OrdersOk(Start(s, Some(c), tab, requestId))
  {
    var t, v := Ensure(s, c), Start(s, Some(c), tab, requestId);
    EnsureKeepsCore(s, c);
    StartKeepsCore(s, c, tab, requestId);
    var r := t.active[c];
    assert v.active == t.active && v.registries == t.registries[r := SetSlot(t.registries[r], tab, |t.streams|)];
    assert tab in v.registries[r].slots;
    forall d | d in v.active && v.active[d] < |v.registries| ensures v.registries[v.active[d]].slots != map[] {
      if d != c {
        assert d in s.active && v.active[d] != r;
      }
    }
    assert OrdersOk(t);
    assert OrderOk(v.registries[r]);
  }

  // ---- Leaving a slot ----

  /** s after the entry e, registered under (c, tab), is replaced by a dead one and detached. */
  function Remove(s: State, c: int, tab: string, e: StreamId, entry: Stream): State
    requires c in s.active && s.active[c] < |s.registries| && e < |s.streams|
  {
    Drop(s, c, tab).(streams := s.streams[e := entry])
  }

  ghost predicate DeadCopy(before: Stream, after: Stream) {
    && after.contents == before.contents && after.tab == before.tab && after.registry == before.registry
    && !after.armed && (after.phase == Finished || after.aborted)
  }

  lemma RemoveSlots(s: State, c: int, tab: string, e: StreamId, entry: Stream)
    requires c in s.active && s.active[c] < |s.registries| && e < |s.streams|
    ensures forall x: RegistryId, k: string ::
              Slot(Remove(s, c, tab, e, entry), x, k) == if x == s.active[c] && k == tab then None else Slot(s, x, k)
  {
  }

  lemma RemoveKeepsCore(s: State, c: int, tab: string, e: StreamId, entry: Stream)
    requires Core(s) && c in s.active && Slot(s, s.active[c], tab) == Some(e)
    requires e < |s.streams| && DeadCopy(s.streams[e], entry)
    ensures Core(Remove(s, c, tab, e, entry))
  {
    var t, r := Remove(s, c, tab, e, entry), s.active[c];
    RemoveSlots(s, c, tab, e, entry);
    forall x: RegistryId, k: string | Slot(t, x, k).Some? ensures Owns(t, x, k, Slot(t, x, k).value) {
      assert Slot(s, x, k) == Slot(t, x, k);
      assert Owns(s, x, k, Slot(s, x, k).value);
      assert Owns(s, r, tab, e);
    }
    forall x: StreamId | Live(t, x) && t.streams[x].contents.Some?
      ensures Slot(t, t.streams[x].registry, t.streams[x].tab) == Some(x)
    {
      assert Live(s, x);
    }
  }

  lemma {:induction false} WithoutMembers(order: seq<string>, tab: string)
    ensures tab !in Without(order, tab)
    ensures forall k :: k in Without(order, tab) ==> k in order
    ensures forall k :: k in order && k != tab ==> k in Without(order, tab)
  {
    if order != [] {
      WithoutMembers(order[..|order| - 1], tab);
      SplitLast(order);
    }
  }

  lemma RemoveKeepsRest(s: State, c: int, tab: string, e: StreamId, entry: Stream)
    requires Inv(s) && c in s.active && e < |s.streams|
    ensures NoneEmpty(Remove(s, c, tab, e, entry)) && OrdersOk(Remove(s, c, tab, e, entry))
  {
    var t, r := Remove(s, c, tab, e, entry), s.active[c];
    WithoutMembers(s.registries[r].order, tab);
    assert OrderOk(s.registries[r]);
    assert OrderOk(t.registries[r]);
    forall d | d in t.active && t.active[d] < |t.registries| ensures t.registries[t.active[d]].slots != map[] {
      assert d in s.active;
    }
  }

  lemma FinishIsRemove(s: State, e: StreamId)
    requires Core(s) && e < |s.streams|
    ensures var entry, dead := s.streams[e], s.streams[e].(phase := Finished, armed := false);
            var registered := entry.contents.Some? && Slot(s, entry.registry, entry.tab) == Some(e);
            && (registered ==>
                  && entry.contents.value in s.active
                  && Slot(s, s.active[entry.contents.value], entry.tab) == Some(e)
                  && Finish(s, e) == Remove(s, entry.contents.value, entry.tab, e, dead))
            && (!registered ==> Finish(s, e) == SetStream(s, e, dead))
  {
    var entry := s.streams[e];
    if entry.contents.Some? && Slot(s, entry.registry, entry.tab) == Some(e) {
      assert Owns(s, entry.registry, entry.tab, e);
      var t := SetStream(s, e, entry.(phase := Finished, armed := false));
      assert Slot(t, entry.registry, entry.tab) == Some(e);
    }
  }

  /** A handler whose entry is in no slot only clears its timer. */
  lemma StaleFinishKeepsCore(s: State, e: StreamId)
    requires Core(s) && e < |s.streams|
    requires !(s.streams[e].contents.Some? && Slot(s, s.streams[e].registry, s.streams[e].tab) == Some(e))
    ensures Core(SetStream(s, e, s.streams[e].(phase := Finished, armed := false)))
  {
    var t := SetStream(s, e, s.streams[e].(phase := Finished, armed := false));
    forall r: RegistryId, tab: string | Slot(t, r, tab).Some? ensures Owns(t, r, tab, Slot(t, r, tab).value) {
      assert Slot(s, r, tab) == Slot(t, r, tab);
      assert Owns(s, r, tab, Slot(s, r, tab).value);
    }
    forall x: StreamId | Live(t, x) && t.streams[x].contents.Some?
      ensures Slot(t, t.streams[x].registry, t.streams[x].tab) == Some(x)
    {
      assert Live(s, x);
    }
  }

  lemma FinishKeepsInv(s: State, e: StreamId)
    requires Inv(s) && e < |s.streams|
    ensures Inv(Finish(s, e))
  {
    var entry, dead := s.streams[e], s.streams[e].(phase := Finished, armed := false);
    FinishIsRemove(s, e);
    if entry.contents.Some? && Slot(s, entry.registry, entry.tab) == Some(e) {
      RemoveKeepsCore(s, entry.contents.value, entry.tab, e, dead);
      RemoveKeepsRest(s, entry.contents.value, entry.tab, e, dead);
    } else {
      StaleFinishKeepsCore(s, e);
    }
  }

  lemma AbortIsRemove(s: State, c: int, tab: string)
    requires Core(s)
    ensures c in s.active && Slot(s, s.active[c], tab).Some? ==> Slot(s, s.active[c], tab).value < |s.streams|
    ensures c in s.active && Slot(s, s.active[c], tab).Some? ==>
              var e := Slot(s, s.active[c], tab).value;
              AbortSlot(s, c, tab) == Remove(s, c, tab, e, s.streams[e].(aborted := true, armed := false))
    ensures c !in s.active || Slot(s, s.active[c], tab).None? ==> AbortSlot(s, c, tab) == s
  {
    if c in s.active && Slot(s, s.active[c], tab).Some? {
      var e := Slot(s, s.active[c], tab).value;
      assert Owns(s, s.active[c], tab, e);
      assert Slot(Supersede(s, e), s.active[c], tab) == Some(e);
    }
  }

  lemma AbortKeepsInv(s: State, c: int, tab: string)
    requires Inv(s)
    ensures Inv(AbortSlot(s, c, tab))
  {
    AbortIsRemove(s, c, tab);
    if c in s.active && Slot(s, s.active[c], tab).Some? {
      var e := Slot(s, s.active[c], tab).value;
      RemoveKeepsCore(s, c, tab, e, s.streams[e].(aborted := true, armed := false));
      RemoveKeepsRest(s, c, tab, e, s.streams[e].(aborted := true, armed := false));
    }
  }

  // ---- Every event keeps the invariant ----

  lemma DetachedStartKeepsCore(s: State, tab: string, requestId: string)
    requires Core(s)
    ensures Core(Start(s, None, tab, requestId))
  {
    var t := Start(s, None, tab, requestId);
    forall r: RegistryId, k: string | Slot(t, r, k).Some? ensures Owns(t, r, k, Slot(t, r, k).value) {
      assert Slot(s, r, k) == Slot(t, r, k);
      assert Owns(s, r, k, Slot(s, r, k).value);
    }
    forall x: StreamId | Live(t, x) && t.streams[x].contents.Some?
      ensures Slot(t, t.streams[x].registry, t.streams[x].tab) == Some(x)
    {
      assert Live(s, x);
    }
  }

  lemma StepKeepsInv(s: State, event: Event)
    requires Inv(s)
    ensures Inv(Step(s, event))
  {
    match event
    case StartEvent(contents, tab, requestId) =>
      if contents.None? {
        DetachedStartKeepsCore(s, tab, requestId);
      } else {
        StartKeepsCore(s, contents.value, tab, requestId);
        StartKeepsRest(s, contents.value, tab, requestId);
      }
    case ResponseEvent(e) =>
      if e < |s.streams| && s.streams[e].phase == Fetching {
        SetStreamKeepsCore(s, e, s.streams[e].(phase := Reading, armed := true));
      }
    case ChunkEvent(e) =>
      if e < |s.streams| && s.streams[e].phase == Reading {
        SetStreamKeepsCore(s, e, s.streams[e].(armed := true));
      }
    case TimeoutEvent(e) =>
      if e < |s.streams| && s.streams[e].armed {
        SetStreamKeepsCore(s, e, s.streams[e].(armed := false, timedOut := true, aborted := true));
      }
    case EndEvent(e) => if e < |s.streams| { FinishKeepsInv(s, e); }
    case AbortEvent(from, tabId, request) =>
      var target := Target(s, from, tabId, request);
      if target.Some? && from.Some? {
        AbortKeepsInv(s, from.value, target.value);
      }
  }

  lemma {:induction false} RunKeepsInv(events: seq<Event>)
    ensures Inv(Run(events))
  {
    if events != [] {
      RunKeepsInv(events[..|events| - 1]);
      StepKeepsInv(Run(events[..|events| - 1]), events[|events| - 1]);
    }
  }

  // ---- What holds in every reachable state ----

  /** Each (window, tab) has at most one running stream that is not aborted, and it is the registered one. */
  lemma AtMostOneLive(events: seq<Event>, e: StreamId, f: StreamId, c: int)
    requires var s := Run(events);
             && Live(s, e) && Live(s, f)
             && s.streams[e].contents == s.streams[f].contents == Some(c) && s.streams[e].tab == s.streams[f].tab
    ensures var s := Run(events);
            e == f && c in s.active && Slot(s, s.active[c], s.streams[e].tab) == Some(e)
  {
    var s := Run(events);
    RunKeepsInv(events);
    assert Slot(s, s.streams[e].registry, s.streams[e].tab) == Some(e);
    assert Slot(s, s.streams[f].registry, s.streams[f].tab) == Some(f);
    assert Owns(s, s.streams[e].registry, s.streams[e].tab, e);
    assert Owns(s, s.streams[f].registry, s.streams[f].tab, f);
  }

  lemma OccupiedIsActive(s: State, r: RegistryId)
    requires Inv(s) && r < |s.registries| && s.registries[r].slots != map[]
    ensures r in s.active.Values
  {
    var tab :| tab in s.registries[r].slots;
    assert Slot(s, r, tab).Some?;
    assert Owns(s, r, tab, Slot(s, r, tab).value);
  }

  /** A registry that is no longer in activeLlmStreams is empty, so a handler that kept it finds nothing there. */
  lemma DroppedRegistryIsEmpty(events: seq<Event>, r: RegistryId)
    requires r < |Run(events).registries| && r !in Run(events).active.Values
    ensures Run(events).registries[r].slots == map[]
  {
    RunKeepsInv(events);
    if Run(events).registries[r].slots != map[] {
      OccupiedIsActive(Run(events), r);
    }
  }

  lemma ActiveHasRunning(s: State, c: int) returns (e: StreamId)
    requires Inv(s) && c in s.active
    ensures e < |s.streams| && s.streams[e].phase != Finished
  {
    assert s.registries[s.active[c]].slots != map[];
    var tab :| tab in s.registries[s.active[c]].slots;
    e := s.registries[s.active[c]].slots[tab];
    assert Slot(s, s.active[c], tab) == Some(e);
    assert Owns(s, s.active[c], tab, e);
  }

  lemma NoneRunningMeansNoneActive(s: State)
    requires Inv(s)
    requires forall e: StreamId :: e < |s.streams| ==> s.streams[e].phase == Finished
    ensures s.active == map[]
  {
    var active: map<int, RegistryId> := s.active;
    forall c | c in active ensures false {
      var e := ActiveHasRunning(s, c);
    }
  }

  /** Once every handler has ended nothing is left: no registry and no armed timer. */
  lemma QuietMeansEmpty(events: seq<Event>)
    requires forall e: StreamId :: e < |Run(events).streams| ==> Run(events).streams[e].phase == Finished
    ensures Run(events).active == map[]
    ensures forall e: StreamId :: e < |Run(events).streams| ==> !Run(events).streams[e].armed
  {
    RunKeepsInv(events);
    NoneRunningMeansNoneActive(Run(events));
  }

  /** The end of a stream empties its own slot, if it still has one, and no other; it is finished and disarmed. */
  lemma CleanupIsLocal(events: seq<Event>, e: StreamId)
    requires e < |Run(events).streams| && Run(events).streams[e].phase != Finished
    ensures var s, t := Run(events), Step(Run(events), EndEvent(e));
            && (forall r: RegistryId, tab: string ::
                  Slot(t, r, tab) == if Slot(s, r, tab) == Some(e) then None else Slot(s, r, tab))
            && t.streams == s.streams[e := s.streams[e].(phase := Finished, armed := false)]
  {
    var s, t := Run(events), Step(Run(events), EndEvent(e));
    RunKeepsInv(events);
    FinishIsRemove(s, e);
    var entry, dead := s.streams[e], s.streams[e].(phase := Finished, armed := false);
    forall r: RegistryId, tab: string
      ensures Slot(t, r, tab) == if Slot(s, r, tab) == Some(e) then None else Slot(s, r, tab)
    {
      if Slot(s, r, tab) == Some(e) {
        assert Owns(s, r, tab, e);
      }
      if entry.contents.Some? && Slot(s, entry.registry, entry.tab) == Some(e) {
        assert Owns(s, entry.registry, entry.tab, e);
        RemoveSlots(s, entry.contents.value, entry.tab, e, dead);
      }
    }
  }

  // ---- The inactivity timer ----

  /** A live stream that reads is armed, and one whose timer has fired is aborted. */
  ghost predicate TimerSound(entry: Stream) {
    && (entry.phase == Reading && !entry.aborted ==> entry.armed)
    && (entry.timedOut ==> entry.aborted)
  }

  ghost predicate TimersSound(s: State) {
    forall e: StreamId :: e < |s.streams| ==> TimerSound(s.streams[e])
  }

  lemma StartKeepsTimers(s: State, contents: Option<int>, tab: string, requestId: string)
    requires TimersSound(s)
    ensures TimersSound(Start(s, contents, tab, requestId))
  {
  }

  lemma StepKeepsTimers(s: State, event: Event)
    requires TimersSound(s)
    ensures TimersSound(Step(s, event))
  {
    match event
    case StartEvent(contents, tab, requestId) => StartKeepsTimers(s, contents, tab, requestId);
    case _ =>
  }

  /** In every reachable state an idle stream has a timer running, which will abort it. */
  lemma {:induction false} IdleStreamsAreTimed(events: seq<Event>)
    ensures TimersSound(Run(events))
  {
    if events != [] {
      IdleStreamsAreTimed(events[..|events| - 1]);
      StepKeepsTimers(Run(events[..|events| - 1]), events[|events| - 1]);
    }
  }

  /** A firing timer aborts its stream, whose handler then ends by itself, and changes no slot and no other entry. */
  lemma TimeoutAborts(s: State, e: StreamId)
    requires e < |s.streams| && s.streams[e].armed
    ensures var t := Step(s, TimeoutEvent(e));
            && !Live(t, e) && t.streams[e].aborted && t.streams[e].timedOut && !t.streams[e].armed
            && t.streams[e].phase == s.streams[e].phase
            && t.active == s.active && t.registries == s.registries
            && |t.streams| == |s.streams| && (forall x: StreamId :: x < |s.streams| && x != e ==> t.streams[x] == s.streams[x])
  {
  }

  /** The response and each chunk start the timer anew, and leave the stream as live as it was. */
  lemma ReadingArms(s: State, e: StreamId)
    requires e < |s.streams|
    ensures s.streams[e].phase == Fetching ==>
              Step(s, ResponseEvent(e)) == s.(streams := s.streams[e := s.streams[e].(phase := Reading, armed := true)])
    ensures s.streams[e].phase == Reading ==>
              Step(s, ChunkEvent(e)) == s.(streams := s.streams[e := s.streams[e].(armed := true)])
  {
  }

  /** A new stream aborts and disarms the one in its slot, and is registered and live itself. */
  lemma StartSupersedes(events: seq<Event>, c: int, tab: string, requestId: string)
    ensures var s, t := Run(events), Step(Run(events), StartEvent(Some(c), tab, requestId));
            && Live(t, |s.streams|) && c in t.active && Slot(t, t.active[c], tab) == Some(|s.streams|)
            && |t.streams| == |s.streams| + 1
            && t.streams[|s.streams|] == Stream(Some(c), tab, t.active[c], requestId, Fetching, false, false, false)
            && forall x: StreamId :: x < |s.streams| ==>
                 t.streams[x] == if c in s.active && Slot(s, s.active[c], tab) == Some(x)
                                 then s.streams[x].(aborted := true, armed := false) else s.streams[x]
  {
    var s := Run(events);
    RunKeepsInv(events);
    EnsureKeepsCore(s, c);
    StartKeepsCore(s, c, tab, requestId);
  }

  // ---- Abort requests ----

  lemma {:induction false} FindByRequestFinds(order: seq<string>, slots: map<string, StreamId>, streams: seq<Stream>,
                                              requestId: string)
    ensures var k := FindByRequest(order, slots, streams, requestId);
            && (k.Some? ==> k.value in order && k.value in slots && slots[k.value] < |streams|
                            && streams[slots[k.value]].requestId == requestId)
            && (k.None? ==> forall tab :: tab in order && tab in slots && slots[tab] < |streams| ==>
                              streams[slots[tab]].requestId != requestId)
  {
    if order != [] {
      FindByRequestFinds(order[1..], slots, streams, requestId);
      assert forall tab :: tab in order ==> tab == order[0] || tab in order[1..];
    }
  }

  /** The request id of the stream in a slot. */
  function RequestIn(s: State, r: RegistryId, tab: string): Option<string> {
    var e := Slot(s, r, tab);
    if e.Some? && e.value < |s.streams| then Some(s.streams[e.value].requestId) else None
  }

  /**
   The slot an abort request means: its tab's; without a tab, or with one that has no slot, one with its request
   id; without a request id either, the only one there is.
   */
  lemma AbortMeans(events: seq<Event>, c: int, tab: Option<string>, requestId: Option<string>)
    requires c in Run(events).active
    ensures var s := Run(events);
            var r := s.active[c];
            var target := Target(s, Some(c), tab, requestId);
            && r < |s.registries|
            && (target.Some? ==> Slot(s, r, target.value).Some?)
            && var byTab := tab.Some? && Slot(s, r, tab.value).Some?;
            && (byTab ==> target == tab)
            && (!byTab && requestId.Some? ==>
                  if target.Some? then RequestIn(s, r, target.value) == requestId
                  else forall k: string :: RequestIn(s, r, k) != requestId)
            && (!byTab && requestId.None? ==> (target.Some? <==> |s.registries[r].slots| == 1))
  {
    var s := Run(events);
    RunKeepsInv(events);
    var r := s.active[c];
    var registry := s.registries[r];
    assert OrderOk(registry);
    forall k: string | Slot(s, r, k).Some? ensures Slot(s, r, k).value < |s.streams| && k in registry.order {
      assert Owns(s, r, k, Slot(s, r, k).value);
    }
    if requestId.Some? {
      FindByRequestFinds(registry.order, registry.slots, s.streams, requestId.value);
    }
    if registry.order != [] {
      assert registry.order[0] in registry.order;
    }
  }

  /** An abort marks the stream it means, disarms it and frees its slot; nothing else changes. */
  lemma AbortIsLocal(events: seq<Event>, c: int, tab: Option<string>, requestId: Option<string>) returns (e: StreamId)
    ensures var s, t := Run(events), Step(Run(events), AbortEvent(Some(c), tab, requestId));
            var target := Target(s, Some(c), tab, requestId);
            && (target.None? ==> t == s)
            && (target.Some? ==>
                  && c in s.active && Slot(s, s.active[c], target.value) == Some(e) && e < |s.streams|
                  && t.streams == s.streams[e := s.streams[e].(aborted := true, armed := false)]
                  && (forall x: RegistryId, k: string ::
                        Slot(t, x, k) == if x == s.active[c] && k == target.value then None else Slot(s, x, k)))
  {
    var s := Run(events);
    var target := Target(s, Some(c), tab, requestId);
    e := 0;
    RunKeepsInv(events);
    if target.Some? {
      AbortMeans(events, c, tab, requestId);
      AbortIsRemove(s, c, target.value);
      e := Slot(s, s.active[c], target.value).value;
      RemoveSlots(s, c, target.value, e, s.streams[e].(aborted := true, armed := false));
    }
  }

  // ---- The process ----

  datatype AbortReply = Aborted | Mismatch | Inactive

  class MainProcess {
    var active: map<int, RegistryId>
    var registries: seq<Registry>
    var streams: seq<Stream>

    ghost function View(): State
      reads this
    {
      State(active, registries, streams)
    }

    constructor ()
      ensures View() == INITIAL
    {
      active, registries, streams := map[], [], [];
    }

    /** The `llm:stream` handler up to its first await. */
    method StartStream(contents: Option<int>, tab: string, requestId: string) returns (e: StreamId)
      requires Inv(View())
      modifies this
      ensures View() == Step(old(View()), StartEvent(contents, tab, requestId)) && Inv(View())
      ensures e == |old(streams)|
    {
      StepKeepsInv(View(), StartEvent(contents, tab, requestId));
      e := |streams|;
      if contents.None? {
        streams := streams + [Stream(None, tab, 0, requestId, Fetching, false, false, false)];
        return;
      }
      var c := contents.value;
      ghost var before := View();
      EnsureKeepsCore(before, c);
      if c !in active {
        active := active[c := |registries|];
        registries := registries + [Registry(map[], [])];
      }
      var r := active[c];
      var slots := registries[r].slots;
      if tab in slots {
        var existing := slots[tab];
        assert Owns(Ensure(before, c), r, tab, Slot(Ensure(before, c), r, tab).value);
        streams := streams[existing := streams[existing].(aborted := true, armed := false)];
      }
      streams := streams + [Stream(Some(c), tab, r, requestId, Fetching, false, false, false)];
      registries := registries[r := Registry(slots[tab := e],
                                             if tab in slots then registries[r].order else registries[r].order + [tab])];
    }

    /** The `finally` block. */
    method EndStream(e: StreamId)
      requires Inv(View()) && e < |streams| && streams[e].phase != Finished
      modifies this
      ensures View() == Step(old(View()), EndEvent(e)) && Inv(View())
    {
      StepKeepsInv(View(), EndEvent(e));
      FinishIsRemove(View(), e);
      var entry := streams[e];
      streams := streams[e := entry.(phase := Finished, armed := false)];
      if entry.contents.Some? && entry.registry < |registries| && entry.tab in registries[entry.registry].slots
         && registries[entry.registry].slots[entry.tab] == e {
        DetachLlmStream(entry.contents.value, entry.tab, e);
      }
    }

    /** detachLlmStream, once the timer is cleared */
    method DetachLlmStream(c: int, tab: string, e: StreamId)
      requires c in active ==> active[c] < |registries|
      modifies this
      ensures View() == Detach(old(View()), c, tab, e)
    {
      if c !in active { return; }
      var r := active[c];
      if tab !in registries[r].slots || registries[r].slots[tab] != e { return; }
      var left := Registry(registries[r].slots - {tab}, Without(registries[r].order, tab));
      registries := registries[r := left];
      if left.slots == map[] {
        active := active - {c};
      }
    }

    /** setTimeout firing, a chunk arriving, the response arriving. */
    method Tick(event: Event)
      requires Inv(View()) && (event.ResponseEvent? || event.ChunkEvent? || event.TimeoutEvent?)
      modifies this
      ensures View() == Step(old(View()), event) && Inv(View())
    {
      StepKeepsInv(View(), event);
      var e := event.e;
      if e >= |streams| { return; }
      var entry := streams[e];
      if event.ResponseEvent? && entry.phase == Fetching {
        streams := streams[e := entry.(phase := Reading, armed := true)];
      } else if event.ChunkEvent? && entry.phase == Reading {
        streams := streams[e := entry.(armed := true)];
      } else if event.TimeoutEvent? && entry.armed {
        streams := streams[e := entry.(armed := false, timedOut := true, aborted := true)];
      }
    }

    /** The `llm:abort` handler. */
    method AbortRequest(contents: Option<int>, tabId: Option<string>, requestId: Option<string>) returns (reply: AbortReply)
      requires Inv(View())
      modifies this
      ensures View() == Step(old(View()), AbortEvent(contents, tabId, requestId)) && Inv(View())
      ensures reply == if Target(old(View()), contents, tabId, requestId).Some? then Aborted
                       else if contents.Some? && contents.value in old(active) && requestId.Some? then Mismatch else Inactive
    {
      StepKeepsInv(View(), AbortEvent(contents, tabId, requestId));
      if contents.None? || contents.value !in active { return Inactive; }
      var c := contents.value;
      var registry := registries[active[c]];
      var target: Option<string> := None;
      if tabId.Some? && tabId.value in registry.slots {
        target := tabId;
      }
      if target.None? && requestId.Some? {
        target := FindByRequest(registry.order, registry.slots, streams, requestId.value);
        FindByRequestFinds(registry.order, registry.slots, streams, requestId.value);
      }
      if target.None? && requestId.None? && |registry.slots| == 1 && registry.order != [] {
        assert OrderOk(registry) && registry.order[0] in registry.order;
        target := Some(registry.order[0]);
      }
      if target.None? {
        return if requestId.Some? then Mismatch else Inactive;
      }
      var e := registry.slots[target.value];
      assert Slot(View(), active[c], target.value) == Some(e);
      assert Owns(View(), active[c], target.value, e);
      streams := streams[e := streams[e].(aborted := true, armed := false)];
      DetachLlmStream(c, target.value, e);
      reply := Aborted;
    }
  }
}
