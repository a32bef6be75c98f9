/** The monitor's objects: what one check, run from start to end, does to memory and store. */
module MonitorService {
  import opened Models
  import opened StateMachine
  import opened AlertProtocol
  import opened Storage
  import opened Registry
  import opened Solo

  function ManagedTarget(service: ManagedService, th: Thresholds): Target {
    Target(NameOf(service), CheckUrl(service), service.config.enabled, th)
  }

  datatype Message = Message(name: string, kind: AlertKind, downtime: Option<nat>)

  /** The message a state calls for, if any. */
  function MessageFor(s: State): seq<Message> {
    match PendingAlert(s)
    case None => []
    case Some(kind) => [Message(s.name, kind, if kind == RecoveredAlert then Downtime(s) else None)]
  }

  /** One message exactly if the user does not know the status: it says the status, and how long an ended outage was. */
  predicate IsAnnouncement(added: seq<Message>, s: State) {
    && |added| == (if (s.status == DOWN && s.notifiedStatus != Some(DOWN)) ||
                      (s.status == UP && s.notifiedStatus == Some(DOWN)) then 1 else 0)
    && forall m :: m in added ==>
         && m.name == s.name && (m.kind == DownAlert <==> s.status == DOWN)
         && (m.kind == DownAlert ==> m.downtime == None)
         && (m.kind == RecoveredAlert ==>
               m.downtime == if s.statusSince.None? || s.downSince.None? then None
                             else if s.statusSince.value < s.downSince.value then Some(0)
                             else Some(s.statusSince.value - s.downSince.value))
  }

  lemma MessageIsAnnouncement(s: State)
    ensures IsAnnouncement(MessageFor(s), s)
  {
  }

  /** The messages of these alerts, of one service. */
  function MessagesOf(name: string, log: seq<Alert>): seq<Message> {
    seq(|log|, i requires 0 <= i < |log| => Message(name, log[i].kind, log[i].downtime))
  }

  /** What a check hands over is what a successful send adds to the log of alerts. */
  lemma MessagesAreTheAlerts(c: Cell, v: Target, result: CheckResult)
    requires c.log == [] && v.enabled && (c.mem.Some? ==> c.mem.value.name == v.name)
    requires c.row.Some? ==> c.row.value.name == v.name
    ensures MessageFor(WithCheck(c, v.name, v.url, result, v.th).mem.value) ==
            MessagesOf(v.name, SoloCheck(c, v, result, Delivered).cell.log)
  {
    SoloCheckTells(c, v, result);
  }

  /** What it is given to send, whatever becomes of it. */
  class Notifier {
    var handed: seq<Message>

    constructor ()
      ensures handed == []
    {
      handed := [];
    }

    method Send(message: Message)
      modifies this
      ensures handed == old(handed) + [message]
    {
      handed := handed + [message];
    }
  }

  class MonitorService {
    const registry: ServiceRegistry
    const store: StateStore
    const notifier: Notifier
    var states: map<string, ServiceState>

    ghost predicate Valid()
      reads this, registry, store
    {
      Named() && registry.Valid()
    }

    ghost predicate Named()
      reads this, store
    {
      && registry.store == store
      && (forall n :: n in states ==> states[n].name == n)
      && (forall n :: n in store.rows ==> store.rows[n].name == n)
    }

    constructor (registry: ServiceRegistry, notifier: Notifier)
      requires forall n :: n in registry.store.rows ==> registry.store.rows[n].name == n
      ensures this.registry == registry && store == registry.store && this.notifier == notifier
      ensures states == map[] && Named()
    {
      this.registry, store, this.notifier, states := registry, registry.store, notifier, map[];
    }

    /** Memory and store of one name, as the alert protocol sees them. */
    ghost function CellOf(name: string): Cell
      reads this, store, states.Values
    {
      EMPTY.(mem := if name in states then Some(states[name].View()) else None, row := RowOf(store.rows, name))
    }

    /** The in-memory state; loaded if there is none, or one for another URL. */
    method StateOf(service: ManagedService) returns (state: ServiceState)
      requires Named()
      modifies this`states
      ensures Named() && states == old(states)[NameOf(service) := state]
      ensures state in old(states).Values || fresh(state)
      ensures Some(state.View()) == WithState(old(CellOf(NameOf(service))), NameOf(service), CheckUrl(service)).mem
      ensures CellOf(NameOf(service)) == WithState(old(CellOf(NameOf(service))), NameOf(service), CheckUrl(service))
      ensures forall n :: n != NameOf(service) ==> CellOf(n) == old(CellOf(n))
    {
      var name := NameOf(service);
      if name in states && states[name].url == CheckUrl(service) {
        state := states[name];
        assert states == states[name := state];
      } else {
        state := store.Load(name, CheckUrl(service));
        states := states[name := state];
      }
    }

    /** One check with nothing in between: exactly those moves, that message, and no other name is touched. */
    method CheckService(service: ManagedService, result: CheckResult, th: Thresholds, delivery: Delivery)
      returns (checked: Option<CheckResult>)
      requires Valid()
      modifies this`states, store`rows, states.Values, notifier
      ensures Valid()
      ensures checked == if registry.Get(NameOf(service)).Some? then Some(result) else None
      ensures checked.None? ==>
                CellOf(NameOf(service)) == old(CellOf(NameOf(service))) && notifier.handed == old(notifier.handed)
      ensures checked.Some? ==>
                var d := SoloCheck(old(CellOf(NameOf(service))), ManagedTarget(service, th), result, delivery).cell;
                CellOf(NameOf(service)).mem == d.mem && CellOf(NameOf(service)).row == d.row
      ensures checked.Some? ==>
                var d := SoloCheck(old(CellOf(NameOf(service))), ManagedTarget(service, th), result, Delivered).cell;
                notifier.handed ==
                old(notifier.handed) + if service.config.enabled then MessagesOf(NameOf(service), d.log) else []
      ensures checked.Some? && service.config.enabled ==>
                var d := WithCheck(old(CellOf(NameOf(service))), NameOf(service), CheckUrl(service), result, th);
                |old(notifier.handed)| <= |notifier.handed| &&
                IsAnnouncement(notifier.handed[|old(notifier.handed)|..], d.mem.value)
      ensures forall n :: n != NameOf(service) ==> CellOf(n) == old(CellOf(n))
    {
      if registry.Get(NameOf(service)) == None {
        return None;
      }
      SoloCheckEndsIn(CellOf(NameOf(service)), ManagedTarget(service, th), result, delivery);
      if service.config.enabled {
        MessagesAreTheAlerts(CellOf(NameOf(service)), ManagedTarget(service, th), result);
      }
      ghost var d := WithCheck(CellOf(NameOf(service)), NameOf(service), CheckUrl(service), result, th);
      MessageIsAnnouncement(d.mem.value);
      PerformCheck(service, result, th, delivery);
      return Some(result);
    }

    method PerformCheck(service: ManagedService, result: CheckResult, th: Thresholds, delivery: Delivery)
      requires Named()
      modifies this`states, store`rows, states.Values, notifier
      ensures Named()
      ensures var s := SoloState(old(CellOf(NameOf(service))), ManagedTarget(service, th), result, delivery);
              CellOf(NameOf(service)) == EMPTY.(mem := Some(s), row := Some(s))
      ensures var d := WithCheck(old(CellOf(NameOf(service))), NameOf(service), CheckUrl(service), result, th);
              notifier.handed == old(notifier.handed) + if service.config.enabled then MessageFor(d.mem.value) else []
      ensures forall n :: n != NameOf(service) ==> CellOf(n) == old(CellOf(n))
    {
      var state := Checked(service, result, th);
      SaveAndNotify(state, service.config.enabled, delivery);
    }

    /** The state is stored as checked or, if its alert was sent, as checked and marked. */
    method SaveAndNotify(state: ServiceState, enabled: bool, delivery: Delivery)
      modifies state, store`rows, notifier
      ensures var kind := PendingAlert(old(state.View()));
              state.View() == if enabled && kind.Some? && delivery == Delivered
                              then Notified(old(state.View()), kind.value) else old(state.View())
      ensures store.rows == old(store.rows)[state.name := state.View()]
      ensures notifier.handed == old(notifier.handed) + if enabled then MessageFor(old(state.View())) else []
      ensures enabled ==> IsAnnouncement(notifier.handed[|old(notifier.handed)|..], old(state.View()))
    {
      MessageIsAnnouncement(state.View());
      store.Save(state);
      if enabled {
        NotifyIfNeeded(state, delivery);
      }
    }

    /** Up to the first save: only memory of this name has changed. */
    method Checked(service: ManagedService, result: CheckResult, th: Thresholds) returns (state: ServiceState)
      requires Named()
      modifies this`states, states.Values
      ensures Named() && NameOf(service) in states && states[NameOf(service)] == state
      ensures Some(state.View()) ==
              WithCheck(old(CellOf(NameOf(service))), NameOf(service), CheckUrl(service), result, th).mem
      ensures state in old(states).Values || fresh(state)
      ensures forall n :: n != NameOf(service) ==> CellOf(n) == old(CellOf(n))
    {
      state := StateOf(service);
      var _ := ApplyCheck(state, result, th);
    }

    /** The pending message is handed over; only if it is sent are state and row marked. */
    method NotifyIfNeeded(state: ServiceState, delivery: Delivery)
      modifies state, store`rows, notifier
      ensures notifier.handed == old(notifier.handed) + MessageFor(old(state.View()))
      ensures IsAnnouncement(notifier.handed[|old(notifier.handed)|..], old(state.View()))
      ensures var kind := PendingAlert(old(state.View()));
              if kind.Some? && delivery == Delivered
              then state.View() == Notified(old(state.View()), kind.value) &&
                   store.rows == old(store.rows)[state.name := state.View()]
              else state.View() == old(state.View()) && store.rows == old(store.rows)
    {
      var kind := PendingAlert(state.View());
      MessageIsAnnouncement(state.View());
      if kind == None {
        return;
      }
      var downtime := if kind.value == RecoveredAlert then Downtime(state.View()) else None;
      notifier.Send(Message(state.name, kind.value, downtime));
      if delivery == Delivered {
        MarkNotified(state, kind.value);
        store.Save(state);
      }
    }

    /** Each service gets the state that memory or store has for it, in turn. */
    method LoadStates(services: seq<ManagedService>)
      requires Named() && DistinctNames(services)
      modifies this`states
      ensures Named()
      ensures forall j :: 0 <= j < |services| ==>
                CellOf(NameOf(services[j])) ==
                WithState(old(CellOf(NameOf(services[j]))), NameOf(services[j]), CheckUrl(services[j]))
      ensures forall n :: (forall j :: 0 <= j < |services| ==> NameOf(services[j]) != n) ==> CellOf(n) == old(CellOf(n))
    {
      for i := 0 to |services|
        invariant Named()
        invariant forall j :: 0 <= j < i ==>
                    CellOf(NameOf(services[j])) ==
                    WithState(old(CellOf(NameOf(services[j]))), NameOf(services[j]), CheckUrl(services[j]))
        invariant forall n :: (forall j :: 0 <= j < i ==> NameOf(services[j]) != n) ==> CellOf(n) == old(CellOf(n))
      {
        var _ := StateOf(services[i]);
      }
    }

    /** On start the registry is read, every registered service gets its state, and no other name is touched. */
    method LoadState()
      requires Named() && registry.ConfigOk() && UniqueNames(store.managed)
      modifies this`states, registry`telegram, registry`order
      ensures Valid()
      ensures forall m :: m in registry.All() ==>
                CellOf(NameOf(m)) == WithState(old(CellOf(NameOf(m))), NameOf(m), CheckUrl(m))
      ensures forall n :: registry.Get(n) == None ==> CellOf(n) == old(CellOf(n))
    {
      registry.Load();
      AllNamesDistinct(registry.config, registry.order);
      LoadStates(registry.All());
      forall n | registry.Get(n) == None ensures CellOf(n) == old(CellOf(n)) {
        Unregistered(registry.config, registry.telegram, n);
      }
    }

    /** An added service has the state the store has for it, which is a fresh one unless a row is left from before. */
    method AddService(url: Option<string>, host: string, name: Option<string>, now: Time)
      returns (r: Result<ManagedService, AddError>)
      requires Valid()
      modifies this`states, registry`telegram, registry`order, store`managed
      ensures Valid()
      ensures r.Err? ==>
                && states == old(states) && store.managed == old(store.managed)
                && registry.telegram == old(registry.telegram)
      ensures r.Ok? ==> registry.Get(NameOf(r.value)) == Some(r.value)
      ensures r.Ok? ==>
                && url.Some? && registry.telegram == old(registry.telegram) + [r.value]
                && store.managed == old(store.managed) + [ServiceRow(NameOf(r.value), url.value, true, now)]
      ensures r.Ok? ==>
                CellOf(NameOf(r.value)) == WithState(old(CellOf(NameOf(r.value))), NameOf(r.value), CheckUrl(r.value))
      ensures r.Ok? ==> forall n :: n != NameOf(r.value) ==> CellOf(n) == old(CellOf(n))
    {
      r := RegisterNew(url, host, name, now);
      if r.Ok? {
        var _ := StateOf(r.value);
      }
    }

    method RegisterNew(url: Option<string>, host: string, name: Option<string>, now: Time)
      returns (r: Result<ManagedService, AddError>)
      requires Valid()
      modifies registry`telegram, registry`order, store`managed
      ensures Valid()
      ensures r.Err? ==> store.managed == old(store.managed) && registry.telegram == old(registry.telegram)
      ensures r.Ok? ==> registry.Get(NameOf(r.value)) == Some(r.value)
      ensures r.Ok? ==>
                && url.Some? && registry.telegram == old(registry.telegram) + [r.value]
                && store.managed == old(store.managed) + [ServiceRow(NameOf(r.value), url.value, true, now)]
    {
      r := registry.Add(url, host, name, now);
      if r.Ok? {
        FindLast(old(registry.telegram), r.value);
      }
    }

    method RemoveService(name: string) returns (r: Result<ManagedService, EditError>)
      requires Valid()
      modifies this`states, registry`telegram, registry`order, store`managed, store`rows
      ensures Valid()
      ensures r.Err? ==> states == old(states) && store.rows == old(store.rows)
      ensures r.Err? ==> store.managed == old(store.managed) && registry.telegram == old(registry.telegram)
      ensures r.Ok? ==> registry.Get(name) == None && !HasName(store.managed, name)
      ensures r.Ok? ==>
                && store.managed == Without(old(store.managed), name)
                && registry.telegram == Drop(old(registry.telegram), name)
      ensures r.Ok? ==> states == old(states) - {name} && store.rows == old(store.rows) - {name}
    {
      r := registry.Remove(name);
      if r.Ok? {
        states := states - {name};
        WithoutMembers(old(store.managed), name);
      }
    }
  }

  lemma FindLast(d: seq<ManagedService>, m: ManagedService)
    ensures Find(d + [m], NameOf(m)) == Some(m)
  {
  }
}
