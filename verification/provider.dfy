/**
 UpnpProvider (UpnpStack/UpnpProvider/UpnpProvider.c): the devices of this host,
 their action handlers and the observers that are told of devices coming and going.
 The three are TinyMaps, held here as the sequences of items of module MapItems.

 `made` lists the observer objects made so far; an object knows its place in it.
 */
module Provider {
  import opened Wrappers
  import opened Containers
  import opened MapItems

  datatype Device = Device(deviceId: Option<string>, body: nat)

  datatype Observer = Observer(ref: nat, onAdded: bool, onRemoved: bool)

  // One call of OnDeviceAdded or OnDeviceRemoved.
  datatype Note = Note(ref: nat, added: bool, device: Device)

  datatype State = State(
    devices: seq<Item<Device>>,
    handlers: seq<Item<nat>>,
    observers: seq<Item<Observer>>,
    log: seq<Note>,
    made: seq<Observer>)

  predicate Hears(o: Observer, added: bool) {
    if added then o.onAdded else o.onRemoved
  }

  // The calls that tell every observer of one device.
  function ToEach(observers: seq<Item<Observer>>, added: bool, device: Device): seq<Note> {
    if observers == [] then []
    else
      var o := observers[|observers| - 1].value;
      ToEach(observers[..|observers| - 1], added, device)
      + if Hears(o, added) then [Note(o.ref, added, device)] else []
  }

  // The calls that tell one observer of every device.
  function OfEach(devices: seq<Item<Device>>, added: bool, ref: nat): seq<Note> {
    if devices == [] then []
    else
      OfEach(devices[..|devices| - 1], added, ref) + [Note(ref, added, devices[|devices| - 1].value)]
  }

  datatype Op =
    | Add(device: Device, handler: nat)
    | Remove(deviceId: string)
    | AddObserver(name: string, onAdded: bool, onRemoved: bool)
    | RemoveObserver(name: string)
    | Clear

  function Answer(s: State, op: Op): TinyRet {
    match op
    case Add(device, _) =>
      if device.deviceId.None? then ArgInvalid
      else if Find(s.devices, device.deviceId.value).Some? then ItemExist
      else if Find(s.handlers, device.deviceId.value).Some? then ItemExist
      else RetOk
    case Remove(id) =>
      if Find(s.devices, id).None? || Find(s.handlers, id).None? then NotFound else RetOk
    case AddObserver(name, _, _) => if Find(s.observers, name).Some? then ItemExist else RetOk
    case RemoveObserver(name) => if Find(s.observers, name).None? then NotFound else RetOk
    case Clear => RetOk
  }

  function Step(s: State, op: Op): State {
    match op
    case Add(device, handler) => AddStep(s, device, handler)
    case Remove(id) =>
      (match Find(s.devices, id)
       case None => s
       case Some(device) =>
         s.(devices := Without(s.devices, id), handlers := Without(s.handlers, id),
            log := s.log + ToEach(s.observers, false, device)))
    case AddObserver(name, onAdded, onRemoved) =>
      var o := Observer(|s.made|, onAdded, onRemoved);
      var s := s.(made := s.made + [o]);
      if Find(s.observers, name).Some? then s
      else
        s.(observers := With(s.observers, name, o),
           log := s.log + if onAdded then OfEach(s.devices, true, o.ref) else [])
    case RemoveObserver(name) =>
      (match Find(s.observers, name)
       case None => s
       case Some(o) =>
         s.(observers := Without(s.observers, name),
            log := s.log + if o.onRemoved then OfEach(s.devices, false, o.ref) else []))
    case Clear => s.(devices := [])
  }

  // A handler that is already there leaves the device inserted and nobody told.
  function AddStep(s: State, device: Device, handler: nat): State {
    if device.deviceId.None? || Find(s.devices, device.deviceId.value).Some? then s
    else
      var id := device.deviceId.value;
      var s := s.(devices := With(s.devices, id, device));
      if Find(s.handlers, id).Some? then s
      else s.(handlers := With(s.handlers, id, handler), log := s.log + ToEach(s.observers, true, device))
  }

  class UpnpProvider {
    var devices: seq<Item<Device>>
    var handlers: seq<Item<nat>>
    var observers: seq<Item<Observer>>
    var made: seq<Observer>
    ghost var log: seq<Note>

    ghost function Snapshot(): State
      reads this
    {
      State(devices, handlers, observers, log, made)
    }

    constructor ()
      ensures Snapshot() == State([], [], [], [], [])
    {
      devices, handlers, observers, made, log := [], [], [], [], [];
    }

    method Notify(ref: nat, added: bool, device: Device)
      modifies this`log
      ensures log == old(log) + [Note(ref, added, device)]
    {
      log := log + [Note(ref, added, device)];
    }

    method NotifyObservers(added: bool, device: Device)
      modifies this`log
      ensures log == old(log) + ToEach(observers, added, device)
    {
      var i := 0;
      while i < |observers|
        invariant i <= |observers|
        invariant log == old(log) + ToEach(observers[..i], added, device)
      {
        var observer := observers[i].value;
        assert observers[..i + 1][..i] == observers[..i];
        if Hears(observer, added) {
          Notify(observer.ref, added, device);
        }
        i := i + 1;
      }
      assert observers[..i] == observers;
    }

    method NotifyDevices(added: bool, ref: nat)
      modifies this`log
      ensures log == old(log) + OfEach(devices, added, ref)
    {
      var i := 0;
      while i < |devices|
        invariant i <= |devices|
        invariant log == old(log) + OfEach(devices[..i], added, ref)
      {
        assert devices[..i + 1][..i] == devices[..i];
        Notify(ref, added, devices[i].value);
        i := i + 1;
      }
      assert devices[..i] == devices;
    }

    method Add(device: Device, handler: nat) returns (ret: TinyRet)
      modifies this
      ensures Snapshot() == Step(old(Snapshot()), Op.Add(device, handler))
      ensures ret == Answer(old(Snapshot()), Op.Add(device, handler))
    {
      hide Find, With, ToEach;
      if device.deviceId == None {
        return ArgInvalid;
      }
      var deviceId := device.deviceId.value;
      if Find(devices, deviceId).Some? {
        return ItemExist;
      }
      devices := With(devices, deviceId, device);
      if Find(handlers, deviceId).Some? {
        return ItemExist;
      }
      handlers := With(handlers, deviceId, handler);
      NotifyObservers(true, device);
      ret := RetOk;
    }

    method Remove(deviceId: string) returns (ret: TinyRet)
      modifies this
      ensures Snapshot() == Step(old(Snapshot()), Op.Remove(deviceId))
      ensures ret == Answer(old(Snapshot()), Op.Remove(deviceId))
    {
      var device := Find(devices, deviceId);
      if device.None? {
        return NotFound;
      }
      NotifyObservers(false, device.value);
      devices := Without(devices, deviceId);
      if Find(handlers, deviceId).None? {
        return NotFound;
      }
      handlers := Without(handlers, deviceId);
      ret := RetOk;
    }

    method AddObserver(name: string, onAdded: bool, onRemoved: bool) returns (ret: TinyRet)
      modifies this
      ensures Snapshot() == Step(old(Snapshot()), Op.AddObserver(name, onAdded, onRemoved))
      ensures ret == Answer(old(Snapshot()), Op.AddObserver(name, onAdded, onRemoved))
    {
      hide Find, With, OfEach;
      var observer := Observer(|made|, onAdded, onRemoved);
      made := made + [observer];
      if Find(observers, name).Some? {
        return ItemExist;
      }
      observers := With(observers, name, observer);
      if onAdded {
        NotifyDevices(true, observer.ref);
      }
      ret := RetOk;
    }

    method RemoveObserver(name: string) returns (ret: TinyRet)
      modifies this
      ensures Snapshot() == Step(old(Snapshot()), Op.RemoveObserver(name))
      ensures ret == Answer(old(Snapshot()), Op.RemoveObserver(name))
    {
      hide Find, Without, OfEach;
      var observer := Find(observers, name);
      if observer.None? {
        return NotFound;
      }
      if observer.value.onRemoved {
        NotifyDevices(false, observer.value.ref);
      }
      observers := Without(observers, name);
      ret := RetOk;
    }

    method Clear()
      modifies this
      ensures Snapshot() == Step(old(Snapshot()), Op.Clear)
    {
      devices := [];
    }
  }

  // ---- runs ----

  function Run(ops: seq<Op>): State {
    if ops == [] then State([], [], [], [], [])
    else Step(Run(ops[..|ops| - 1]), ops[|ops| - 1])
  }

  predicate NoClear(ops: seq<Op>) {
    forall i :: 0 <= i < |ops| ==> !ops[i].Clear?
  }

  function Keys<V>(items: seq<Item<V>>): (r: seq<string>)
    ensures |r| == |items| && forall i :: 0 <= i < |r| ==> r[i] == items[i].key
  {
    seq(|items|, i requires 0 <= i < |items| => items[i].key)
  }

  // Calls about device d to observer object `ref`: arrivals minus departures.
  function Net(log: seq<Note>, ref: nat, d: Device): int {
    if log == [] then 0
    else
      var n := log[|log| - 1];
      Net(log[..|log| - 1], ref, d) + if n.ref != ref || n.device != d then 0 else if n.added then 1 else -1
  }

  lemma {:induction false} NetSum(a: seq<Note>, b: seq<Note>, ref: nat, d: Device)
    ensures Net(a + b, ref, d) == Net(a, ref, d) + Net(b, ref, d)
  {
    if b == [] {
      assert a + b == a;
    } else {
      assert (a + b)[..|a + b| - 1] == a + b[..|b| - 1];
      NetSum(a, b[..|b| - 1], ref, d);
    }
  }

  lemma NetOne(n: Note, ref: nat, d: Device)
    ensures Net([n], ref, d) == if n.ref != ref || n.device != d then 0 else if n.added then 1 else -1
    ensures Net([], ref, d) == 0
  {
    assert [n][..0] == [];
  }

  function Sign(added: bool): int {
    if added then 1 else -1
  }

  // The observers are objects made by this provider, pairwise different.
  predicate Refs(observers: seq<Item<Observer>>, made: seq<Observer>) {
    && (forall i :: 0 <= i < |made| ==> made[i].ref == i)
    && (forall i :: 0 <= i < |observers| ==>
          var o := observers[i].value; o.ref < |made| && o == made[o.ref])
    && Apart(observers)
  }

  // The devices are kept under their own identifiers.
  predicate Named(devices: seq<Item<Device>>) {
    forall i :: 0 <= i < |devices| ==>
      devices[i].value.deviceId.Some? && devices[i].key == Clip(devices[i].value.deviceId.value)
  }

  lemma NamedApart(devices: seq<Item<Device>>)
    requires Keyed(devices) && Named(devices)
    ensures Apart(devices)
  {
  }

  lemma {:induction false} ToEachNet(observers: seq<Item<Observer>>, made: seq<Observer>, added: bool,
                                     device: Device, r: nat, d: Device)
    requires Refs(observers, made)
    ensures Net(ToEach(observers, added, device), r, d) ==
            if r < |made| && Holds(observers, made[r]) && Hears(made[r], added) && d == device then Sign(added) else 0
  {
    if observers != [] {
      var l := |observers| - 1;
      var p := observers[l].value;
      assert Refs(observers[..l], made) && Apart(observers) && (r < |made| && made[r] == p <==> p.ref == r);
      hide Refs;
      ToEachNet(observers[..l], made, added, device, r, d);
      NetSum(ToEach(observers[..l], added, device), if Hears(p, added) then [Note(p.ref, added, device)] else [], r, d);
      NetOne(Note(p.ref, added, device), r, d);
      if r < |made| {
        HoldsSplit(observers, made[r]);
      }
    }
  }

  lemma {:induction false} OfEachNet(devices: seq<Item<Device>>, added: bool, ref: nat, r: nat, d: Device)
    requires Keyed(devices) && Named(devices)
    ensures Net(OfEach(devices, added, ref), r, d) == if r == ref && Holds(devices, d) then Sign(added) else 0
  {
    if devices != [] {
      var l := |devices| - 1;
      OfEachNet(devices[..l], added, ref, r, d);
      NetSum(OfEach(devices[..l], added, ref), [Note(ref, added, devices[l].value)], r, d);
      NetOne(Note(ref, added, devices[l].value), r, d);
      NamedApart(devices);
      HoldsSplit(devices, d);
    }
  }

  // What holds of the maps in every run, also after Clear.
  predicate Sound(s: State) {
    && Keyed(s.devices) && Keyed(s.handlers) && Keyed(s.observers)
    && Named(s.devices) && Refs(s.observers, s.made)
  }

  // What has been told about device d to the observer object number r is that it is there or not.
  ghost predicate ToldOf(s: State, r: nat, d: Device) {
    if r >= |s.made| then Net(s.log, r, d) == 0
    else
      s.made[r].onAdded && s.made[r].onRemoved ==>
        Net(s.log, r, d) == if Holds(s.observers, s.made[r]) && Holds(s.devices, d) then 1 else 0
  }

  ghost predicate Told(s: State) {
    forall r: nat, d: Device :: ToldOf(s, r, d)
  }

  // ---- what insertion and removal do to the members ----

  lemma AddedMember(devices: seq<Item<Device>>, id: string, device: Device, d: Device)
    requires Keyed(devices) && Find(devices, id).None? && Named(devices) && device.deviceId == Some(id)
    ensures Named(With(devices, id, device))
    ensures Holds(With(devices, id, device), d) <==> Holds(devices, d) || d == device
    ensures !Holds(devices, device)
  {
    HoldsWith(devices, id, device, d);
    IndexOfMeans(devices, id);
    hide IndexOf, Keyed;
  }

  lemma RemovedMember(devices: seq<Item<Device>>, id: string, d: Device)
    requires Keyed(devices) && Find(devices, id).Some? && Named(devices)
    ensures Named(Without(devices, id))
    ensures Holds(Without(devices, id), d) <==> Holds(devices, d) && d != Find(devices, id).value
    ensures Holds(devices, Find(devices, id).value)
  {
    NamedApart(devices);
    HoldsWithout(devices, id, d);
    hide IndexOf, Keyed;
  }

  lemma AddedObserver(observers: seq<Item<Observer>>, made: seq<Observer>, name: string, o: Observer, q: Observer)
    requires Find(observers, name).None? && Refs(observers, made) && o.ref == |made|
    ensures Refs(With(observers, name, o), made + [o])
    ensures Holds(With(observers, name, o), q) <==> Holds(observers, q) || q == o
    ensures !Holds(observers, o)
  {
    HoldsWith(observers, name, o, q);
    hide IndexOf;
  }

  lemma RemovedObserver(observers: seq<Item<Observer>>, made: seq<Observer>, name: string, q: Observer)
    requires Keyed(observers) && Find(observers, name).Some? && Refs(observers, made)
    ensures Refs(Without(observers, name), made)
    ensures Holds(Without(observers, name), q) <==> Holds(observers, q) && q != Find(observers, name).value
    ensures Holds(observers, Find(observers, name).value)
    ensures var o := Find(observers, name).value; o.ref < |made| && made[o.ref] == o
  {
    HoldsWithout(observers, name, q);
    hide IndexOf, Keyed;
  }

  lemma MoreMade(observers: seq<Item<Observer>>, made: seq<Observer>, o: Observer)
    requires Refs(observers, made) && o.ref == |made|
    ensures Refs(observers, made + [o]) && !Holds(observers, o)
  {
  }

  lemma NoDevices()
    ensures Keyed<Device>([]) && Named([])
  {
  }

  lemma StepSound(s: State, op: Op)
    requires Sound(s)
    ensures Sound(Step(s, op))
  {
    hide Keyed, Named, Refs, Find, With, Without, ToEach, OfEach;
    if op.Add? {
      if op.device.deviceId.Some? {
        InsertKeeps(s.devices, op.device.deviceId.value, op.device);
        InsertKeeps(s.handlers, op.device.deviceId.value, op.handler);
        if Find(s.devices, op.device.deviceId.value).None? {
          AddedMember(s.devices, op.device.deviceId.value, op.device, op.device);
        }
      }
    } else if op.Remove? {
      EraseKeeps(s.devices, op.deviceId);
      EraseKeeps(s.handlers, op.deviceId);
      if Find(s.devices, op.deviceId).Some? {
        RemovedMember(s.devices, op.deviceId, Find(s.devices, op.deviceId).value);
      }
    } else if op.AddObserver? {
      var o := Observer(|s.made|, op.onAdded, op.onRemoved);
      InsertKeeps(s.observers, op.name, o);
      MoreMade(s.observers, s.made, o);
      if Find(s.observers, op.name).None? {
        AddedObserver(s.observers, s.made, op.name, o, o);
      }
    } else if op.RemoveObserver? {
      EraseKeeps(s.observers, op.name);
      if Find(s.observers, op.name).Some? {
        RemovedObserver(s.observers, s.made, op.name, Find(s.observers, op.name).value);
      }
    } else {
      NoDevices();
    }
  }

  // ---- equal keys ----

  lemma {:induction false} SameKeysSameIndex<V, W>(a: seq<Item<V>>, b: seq<Item<W>>, key: string)
    requires Keyed(a) && Keyed(b) && Keys(a) == Keys(b)
    ensures IndexOf(a, key) == IndexOf(b, key)
  {
    IndexOfMeans(a, key);
    IndexOfMeans(b, key);
    hide IndexOf;
    forall i | 0 <= i < |a|
      ensures a[i].key == b[i].key
    {
      assert Keys(a)[i] == Keys(b)[i];
    }
    assert |Keys(a)| == |a| && |Keys(b)| == |b|;
  }

  lemma StepKeys(s: State, op: Op)
    requires Sound(s) && Keys(s.devices) == Keys(s.handlers) && !op.Clear?
    ensures Keys(Step(s, op).devices) == Keys(Step(s, op).handlers)
  {
    hide IndexOf, Keyed, Named, Refs, ToEach, OfEach;
    if op.Add? && op.device.deviceId.Some? {
      var id := op.device.deviceId.value;
      SameKeysSameIndex(s.devices, s.handlers, id);
      assert forall v: Device :: Keys(s.devices + [Item(Clip(id), v)]) == Keys(s.devices) + [Clip(id)];
      assert forall v: nat :: Keys(s.handlers + [Item(Clip(id), v)]) == Keys(s.handlers) + [Clip(id)];
    } else if op.Remove? {
      SameKeysSameIndex(s.devices, s.handlers, op.deviceId);
      var p := IndexOf(s.devices, op.deviceId);
      KeysRemoved(s.devices, p);
      KeysRemoved(s.handlers, p);
    }
  }

  lemma KeysRemoved<V>(items: seq<Item<V>>, p: int)
    ensures Keys(Removed(items, p)) == Removed(Keys(items), p)
  {
  }

  lemma BeginsSound()
    ensures Sound(Run([]))
  {
  }

  /** Without Clear, devices and handlers have the same keys in the same order. */
  lemma {:induction false} DevicesHaveHandlers(ops: seq<Op>)
    requires NoClear(ops)
    ensures Sound(Run(ops)) && Keys(Run(ops).devices) == Keys(Run(ops).handlers)
  {
    hide Step, Sound;
    if ops == [] {
      BeginsSound();
    } else {
      DevicesHaveHandlers(ops[..|ops| - 1]);
      StepSound(Run(ops[..|ops| - 1]), ops[|ops| - 1]);
      StepKeys(Run(ops[..|ops| - 1]), ops[|ops| - 1]);
    }
  }

  // ---- what a step tells ----

  // Calls to observer object `ref` about device d, of one kind.
  function Notes(log: seq<Note>, ref: nat, added: bool, d: Device): nat {
    if log == [] then 0
    else Notes(log[..|log| - 1], ref, added, d) + if log[|log| - 1] == Note(ref, added, d) then 1 else 0
  }

  lemma {:induction false} NotesSum(a: seq<Note>, b: seq<Note>, ref: nat, added: bool, d: Device)
    ensures Notes(a + b, ref, added, d) == Notes(a, ref, added, d) + Notes(b, ref, added, d)
  {
    if b == [] {
      assert a + b == a;
    } else {
      assert (a + b)[..|a + b| - 1] == a + b[..|b| - 1];
      NotesSum(a, b[..|b| - 1], ref, added, d);
    }
  }

  lemma NotesOne(n: Note, ref: nat, added: bool, d: Device)
    ensures Notes([n], ref, added, d) == if n == Note(ref, added, d) then 1 else 0
    ensures Notes([], ref, added, d) == 0
  {
    assert [n][..0] == [];
  }

  lemma {:induction false} EachHears(observers: seq<Item<Observer>>, made: seq<Observer>, added: bool, device: Device,
                                     r: nat, b: bool, d: Device)
    requires Refs(observers, made)
    ensures Notes(ToEach(observers, added, device), r, b, d) ==
            if b == added && d == device && r < |made| && Holds(observers, made[r])
               && (if added then made[r].onAdded else made[r].onRemoved) then 1 else 0
  {
    if observers != [] {
      var l := |observers| - 1;
      var p := observers[l].value;
      assert Refs(observers[..l], made) && Apart(observers) && (r < |made| && made[r] == p <==> p.ref == r);
      hide Refs;
      EachHears(observers[..l], made, added, device, r, b, d);
      NotesSum(ToEach(observers[..l], added, device), if Hears(p, added) then [Note(p.ref, added, device)] else [],
        r, b, d);
      NotesOne(Note(p.ref, added, device), r, b, d);
      if r < |made| {
        HoldsSplit(observers, made[r]);
      }
    }
  }

  lemma {:induction false} HearsOfEach(devices: seq<Item<Device>>, added: bool, ref: nat, r: nat, b: bool, d: Device)
    requires Keyed(devices) && Named(devices)
    ensures Notes(OfEach(devices, added, ref), r, b, d) == if b == added && r == ref && Holds(devices, d) then 1 else 0
  {
    if devices != [] {
      var l := |devices| - 1;
      HearsOfEach(devices[..l], added, ref, r, b, d);
      NotesSum(OfEach(devices[..l], added, ref), [Note(ref, added, devices[l].value)], r, b, d);
      NotesOne(Note(ref, added, devices[l].value), r, b, d);
      NamedApart(devices);
      HoldsSplit(devices, d);
    }
  }

  // Observer object r is registered, and device d is there.
  ghost predicate Knows(s: State, r: nat, d: Device) {
    r < |s.made| && Holds(s.observers, s.made[r]) && Holds(s.devices, d)
  }

  // From s to t observer object r hears of d what has changed, if it has the callback for it.
  ghost predicate Heard(s: State, t: State, r: nat, d: Device) {
    && Notes(t.log, r, true, d) == Notes(s.log, r, true, d)
       + (if Knows(t, r, d) && !Knows(s, r, d) && t.made[r].onAdded then 1 else 0)
    && Notes(t.log, r, false, d) == Notes(s.log, r, false, d)
       + (if Knows(s, r, d) && !Knows(t, r, d) && s.made[r].onRemoved then 1 else 0)
  }

  lemma HeardAdd(s: State, device: Device, handler: nat, r: nat, d: Device)
    requires Sound(s) && device.deviceId.Some?
    requires Find(s.devices, device.deviceId.value).None? && Find(s.handlers, device.deviceId.value).None?
    ensures Heard(s, AddStep(s, device, handler), r, d)
  {
    hide Find, With, Keyed, Named, Refs, Holds, Notes, ToEach;
    AddedMember(s.devices, device.deviceId.value, device, d);
    EachHears(s.observers, s.made, true, device, r, true, d);
    EachHears(s.observers, s.made, true, device, r, false, d);
    NotesSum(s.log, ToEach(s.observers, true, device), r, true, d);
    NotesSum(s.log, ToEach(s.observers, true, device), r, false, d);
  }

  lemma HeardRemove(s: State, id: string, r: nat, d: Device)
    requires Sound(s) && Find(s.devices, id).Some?
    ensures Heard(s, Step(s, Remove(id)), r, d)
  {
    hide Find, Without, Keyed, Named, Refs, Holds, Notes, ToEach;
    var device := Find(s.devices, id).value;
    RemovedMember(s.devices, id, d);
    EachHears(s.observers, s.made, false, device, r, true, d);
    EachHears(s.observers, s.made, false, device, r, false, d);
    NotesSum(s.log, ToEach(s.observers, false, device), r, true, d);
    NotesSum(s.log, ToEach(s.observers, false, device), r, false, d);
  }

  // The calls an observer object gets about all devices at once, if it has the callback.
  lemma NotesOfAll(s: State, ref: nat, added: bool, told: bool, r: nat, b: bool, d: Device)
    requires Keyed(s.devices) && Named(s.devices)
    ensures Notes(s.log + if told then OfEach(s.devices, added, ref) else [], r, b, d) ==
            Notes(s.log, r, b, d) + if told && b == added && r == ref && Holds(s.devices, d) then 1 else 0
  {
    HearsOfEach(s.devices, added, ref, r, b, d);
    NotesSum(s.log, if told then OfEach(s.devices, added, ref) else [], r, b, d);
    NotesOne(Note(0, true, d), r, b, d);
    hide Keyed, Named, Holds, Notes, OfEach;
  }

  lemma HeardRegistered(s: State, t: State, name: string, o: Observer, r: nat, d: Device)
    requires Sound(s) && o.ref == |s.made| && Find(s.observers, name).None?
    requires t.observers == With(s.observers, name, o) && t.made == s.made + [o] && t.devices == s.devices
    requires t.log == s.log + if o.onAdded then OfEach(s.devices, true, o.ref) else []
    ensures Heard(s, t, r, d)
  {
    assert r < |s.made| ==> s.made[r].ref == r;
    hide Find, With, Keyed, Named, Refs, Holds, Notes, OfEach;
    AddedObserver(s.observers, s.made, name, o, if r < |s.made| then s.made[r] else o);
    NotesOfAll(s, o.ref, true, o.onAdded, r, true, d);
    NotesOfAll(s, o.ref, true, o.onAdded, r, false, d);
  }

  lemma HeardUnregistered(s: State, t: State, name: string, r: nat, d: Device)
    requires Sound(s) && Find(s.observers, name).Some?
    requires var o := Find(s.observers, name).value;
             t == s.(observers := Without(s.observers, name),
                     log := s.log + if o.onRemoved then OfEach(s.devices, false, o.ref) else [])
    ensures Heard(s, t, r, d)
  {
    assert r < |s.made| ==> s.made[r].ref == r;
    hide Find, Without, Keyed, Named, Refs, Holds, Notes, OfEach;
    var o := Find(s.observers, name).value;
    RemovedObserver(s.observers, s.made, name, if r < |s.made| then s.made[r] else o);
    NotesOfAll(s, o.ref, false, o.onRemoved, r, true, d);
    NotesOfAll(s, o.ref, false, o.onRemoved, r, false, d);
  }

  lemma StepHeard(s: State, op: Op, r: nat, d: Device)
    requires Sound(s) && Keys(s.devices) == Keys(s.handlers) && !op.Clear?
    ensures Heard(s, Step(s, op), r, d)
  {
    hide Keyed, Named, Refs, With, Without, IndexOf, ToEach, OfEach, Notes, Holds;
    if op.Add? {
      if op.device.deviceId.Some? {
        SameKeysSameIndex(s.devices, s.handlers, op.device.deviceId.value);
        if Find(s.devices, op.device.deviceId.value).None? {
          HeardAdd(s, op.device, op.handler, r, d);
        }
      }
    } else if op.Remove? {
      if Find(s.devices, op.deviceId).Some? {
        HeardRemove(s, op.deviceId, r, d);
      }
    } else if op.AddObserver? {
      var o := Observer(|s.made|, op.onAdded, op.onRemoved);
      MoreMade(s.observers, s.made, o);
      if Find(s.observers, op.name).None? {
        HeardRegistered(s, Step(s, op), op.name, o, r, d);
      }
    } else if Find(s.observers, op.name).Some? {
      HeardUnregistered(s, Step(s, op), op.name, r, d);
    }
  }

  /** In every run without Clear: at each step an observer object hears once of each device that it comes to
      know of, if it has the one callback, and of each that it knows of no longer, if it has the other. */
  lemma HeardExactly(ops: seq<Op>, op: Op, r: nat, d: Device)
    requires NoClear(ops) && !op.Clear?
    ensures Heard(Run(ops), Step(Run(ops), op), r, d)
  {
    DevicesHaveHandlers(ops);
    hide *;
    StepHeard(Run(ops), op, r, d);
  }

  // ---- what observers have been told ----

  lemma TellsAdd(s: State, device: Device, handler: nat, r: nat, d: Device)
    requires Sound(s) && ToldOf(s, r, d) && device.deviceId.Some?
    requires Find(s.devices, device.deviceId.value).None? && Find(s.handlers, device.deviceId.value).None?
    ensures ToldOf(AddStep(s, device, handler), r, d)
  {
    hide Find, With, Keyed, Named, Refs, Holds, Net, ToEach;
    AddedMember(s.devices, device.deviceId.value, device, d);
    ToEachNet(s.observers, s.made, true, device, r, d);
    NetSum(s.log, ToEach(s.observers, true, device), r, d);
  }

  lemma TellsRemove(s: State, id: string, r: nat, d: Device)
    requires Sound(s) && ToldOf(s, r, d) && Find(s.devices, id).Some?
    ensures ToldOf(Step(s, Remove(id)), r, d)
  {
    hide Find, Without, Keyed, Named, Refs, Holds, Net, ToEach;
    var device := Find(s.devices, id).value;
    RemovedMember(s.devices, id, d);
    ToEachNet(s.observers, s.made, false, device, r, d);
    NetSum(s.log, ToEach(s.observers, false, device), r, d);
  }

  // A new observer object that is not registered, because its name is taken.
  lemma TellsRefused(s: State, o: Observer, r: nat, d: Device)
    requires Sound(s) && ToldOf(s, r, d) && o.ref == |s.made|
    ensures ToldOf(s.(made := s.made + [o]), r, d)
  {
    MoreMade(s.observers, s.made, o);
    hide Keyed, Named, Refs, Holds, Net;
  }

  // An earlier observer object, when another one is registered.
  lemma TellsOthers(s: State, t: State, name: string, o: Observer, r: nat, d: Device)
    requires Sound(s) && ToldOf(s, r, d) && o.ref == |s.made| && r != o.ref && Find(s.observers, name).None?
    requires t.observers == With(s.observers, name, o) && t.made == s.made + [o] && t.devices == s.devices
    requires t.log == s.log + if o.onAdded then OfEach(s.devices, true, o.ref) else []
    ensures ToldOf(t, r, d)
  {
    assert r < |s.made| ==> s.made[r].ref == r;
    hide Find, With, Keyed, Named, Refs, Holds, Net, OfEach;
    AddedObserver(s.observers, s.made, name, o, if r < |s.made| then s.made[r] else o);
    OfEachNet(s.devices, true, o.ref, r, d);
    NetSum(s.log, if o.onAdded then OfEach(s.devices, true, o.ref) else [], r, d);
    NetOne(Note(0, true, d), r, d);
  }

  // The observer object that is registered.
  lemma TellsNewcomer(s: State, t: State, name: string, o: Observer, d: Device)
    requires Sound(s) && ToldOf(s, o.ref, d) && o.ref == |s.made| && Find(s.observers, name).None?
    requires t.observers == With(s.observers, name, o) && t.made == s.made + [o] && t.devices == s.devices
    requires t.log == s.log + if o.onAdded then OfEach(s.devices, true, o.ref) else []
    ensures ToldOf(t, o.ref, d)
  {
    hide Find, With, Keyed, Named, Refs, Holds, Net, OfEach;
    AddedObserver(s.observers, s.made, name, o, o);
    OfEachNet(s.devices, true, o.ref, o.ref, d);
    NetSum(s.log, if o.onAdded then OfEach(s.devices, true, o.ref) else [], o.ref, d);
    NetOne(Note(0, true, d), o.ref, d);
  }

  lemma TellsAddObserver(s: State, op: Op, r: nat, d: Device)
    requires Sound(s) && ToldOf(s, r, d) && op.AddObserver?
    ensures ToldOf(Step(s, op), r, d)
  {
    hide Find, With, Sound, ToldOf, OfEach;
    var o := Observer(|s.made|, op.onAdded, op.onRemoved);
    if Find(s.observers, op.name).Some? {
      TellsRefused(s, o, r, d);
    } else if r == o.ref {
      TellsNewcomer(s, Step(s, op), op.name, o, d);
    } else {
      TellsOthers(s, Step(s, op), op.name, o, r, d);
    }
  }

  // What the calls to an observer that leaves change.
  lemma LeavingNet(s: State, o: Observer, r: nat, d: Device)
    requires Keyed(s.devices) && Named(s.devices)
    ensures Net(s.log + if o.onRemoved then OfEach(s.devices, false, o.ref) else [], r, d) ==
            Net(s.log, r, d) - if o.onRemoved && r == o.ref && Holds(s.devices, d) then 1 else 0
  {
    OfEachNet(s.devices, false, o.ref, r, d);
    NetSum(s.log, if o.onRemoved then OfEach(s.devices, false, o.ref) else [], r, d);
    NetOne(Note(0, true, d), r, d);
    hide Keyed, Named, Holds, Net, OfEach;
  }

  lemma TellsRemoveObserver(s: State, name: string, r: nat, d: Device)
    requires Sound(s) && ToldOf(s, r, d) && Find(s.observers, name).Some?
    ensures ToldOf(Step(s, RemoveObserver(name)), r, d)
  {
    assert r < |s.made| ==> s.made[r].ref == r;
    hide Find, Without, Keyed, Named, Refs, Holds, Net, OfEach;
    var o, t := Find(s.observers, name).value, Step(s, RemoveObserver(name));
    RemovedObserver(s.observers, s.made, name, if r < |s.made| then s.made[r] else o);
    assert t == s.(observers := Without(s.observers, name),
                   log := s.log + if o.onRemoved then OfEach(s.devices, false, o.ref) else []);
    LeavingNet(s, o, r, d);
    hide Step;
  }

  lemma StepTells(s: State, op: Op, r: nat, d: Device)
    requires Sound(s) && ToldOf(s, r, d) && Keys(s.devices) == Keys(s.handlers) && !op.Clear?
    ensures ToldOf(Step(s, op), r, d)
  {
    hide Keyed, Named, Refs, With, Without, IndexOf, ToEach, OfEach, ToldOf;
    if op.Add? {
      if op.device.deviceId.Some? {
        SameKeysSameIndex(s.devices, s.handlers, op.device.deviceId.value);
        if Find(s.devices, op.device.deviceId.value).None? {
          TellsAdd(s, op.device, op.handler, r, d);
        }
      }
    } else if op.Remove? {
      if Find(s.devices, op.deviceId).Some? {
        TellsRemove(s, op.deviceId, r, d);
      }
    } else if op.AddObserver? {
      TellsAddObserver(s, op, r, d);
    } else if Find(s.observers, op.name).Some? {
      TellsRemoveObserver(s, op.name, r, d);
    }
  }

  lemma BeginsTold()
    ensures Told(Run([]))
  {
  }

  /**
   In every run without Clear, each observer with both callbacks has been told of one arrival
   more than departures for exactly the devices that are there while it is registered, and of
   as many departures as arrivals for every other device and once it is no longer registered.
   */
  lemma {:induction false} ObserversKnowTheDevices(ops: seq<Op>)
    requires NoClear(ops)
    ensures Told(Run(ops))
  {
    hide Step, Sound, ToldOf;
    if ops == [] {
      BeginsTold();
    } else {
      var s, op := Run(ops[..|ops| - 1]), ops[|ops| - 1];
      ObserversKnowTheDevices(ops[..|ops| - 1]);
      DevicesHaveHandlers(ops[..|ops| - 1]);
      forall r: nat, d: Device
        ensures ToldOf(Run(ops), r, d)
      {
        StepTells(s, op, r, d);
      }
    }
  }

  // ---- Clear ----

  lemma {:induction false} AlwaysSound(ops: seq<Op>)
    ensures Sound(Run(ops))
  {
    hide Step, Sound;
    if ops == [] {
      BeginsSound();
    } else {
      AlwaysSound(ops[..|ops| - 1]);
      StepSound(Run(ops[..|ops| - 1]), ops[|ops| - 1]);
    }
  }

  /** Clear keeps the agreement of devices and handlers exactly when there was no device. */
  lemma ClearLeavesHandlers(ops: seq<Op>)
    requires NoClear(ops)
    ensures var s := Run(ops + [Clear]);
            Keys(s.devices) == Keys(s.handlers) <==> Run(ops).devices == []
  {
    assert (ops + [Clear])[..|ops|] == ops;
    DevicesHaveHandlers(ops);
    hide Sound;
    assert |Keys(Run(ops).devices)| == |Run(ops).devices|;
  }

  /** And what observers know exactly when there was no device or nobody registered with both callbacks. */
  lemma ClearTellsNobody(ops: seq<Op>)
    requires NoClear(ops)
    ensures Told(Run(ops + [Clear])) <==>
            Run(ops).devices == []
            || forall i :: 0 <= i < |Run(ops).observers| ==>
                 var o := Run(ops).observers[i].value; !(o.onAdded && o.onRemoved)
  {
    assert (ops + [Clear])[..|ops|] == ops;
    DevicesHaveHandlers(ops);
    ObserversKnowTheDevices(ops);
    var s, t := Run(ops), Run(ops + [Clear]);
    assert t == s.(devices := []);
    hide Run, Keyed, Net;
    if s.devices != [] {
      var d := s.devices[0].value;
      assert Holds(s.devices, d);
      forall i | 0 <= i < |s.observers| && s.observers[i].value.onAdded && s.observers[i].value.onRemoved
        ensures !Told(t)
      {
        var o := s.observers[i].value;
        assert Holds(s.observers, o);
        assert ToldOf(s, o.ref, d) && !ToldOf(t, o.ref, d);
      }
      forall r: nat, e: Device | forall i :: 0 <= i < |s.observers| ==>
                                   !(s.observers[i].value.onAdded && s.observers[i].value.onRemoved)
        ensures ToldOf(t, r, e)
      {
        assert ToldOf(s, r, e);
      }
    }
  }

  /** Adding a device whose identifier was cleared away: it is inserted, refused, and nobody is told. */
  lemma ReAddAfterClear(ops: seq<Op>, device: Device, handler: nat)
    requires NoClear(ops) && device.deviceId.Some?
    ensures var s := Run(ops + [Clear]);
            var t := Step(s, Add(device, handler));
            && (Find(Run(ops).devices, device.deviceId.value).Some? ==>
                  Answer(s, Add(device, handler)) == ItemExist && Holds(t.devices, device) && t.log == s.log)
            && (Find(Run(ops).devices, device.deviceId.value).None? ==>
                  Answer(s, Add(device, handler)) == RetOk)
  {
    var s, id := Run(ops), device.deviceId.value;
    RunOn(ops, Clear);
    KeysAlike(ops, id);
    hide Run, Sound;
    ReAdded(s, device, handler);
  }

  lemma RunOn(ops: seq<Op>, op: Op)
    ensures Run(ops + [op]) == Step(Run(ops), op)
  {
    assert (ops + [op])[..|ops|] == ops;
  }

  lemma KeysAlike(ops: seq<Op>, id: string)
    requires NoClear(ops)
    ensures Find(Run(ops).devices, id).Some? == Find(Run(ops).handlers, id).Some?
  {
    DevicesHaveHandlers(ops);
    SoundKeyed(Run(ops));
    hide Run, Sound, Keyed;
    SameKeysSameIndex(Run(ops).devices, Run(ops).handlers, id);
  }

  lemma ReAdded(s: State, device: Device, handler: nat)
    requires device.deviceId.Some?
    requires Find(s.devices, device.deviceId.value).Some? == Find(s.handlers, device.deviceId.value).Some?
    ensures var c := Step(s, Clear);
            var t := Step(c, Add(device, handler));
            if Find(s.devices, device.deviceId.value).Some?
            then Answer(c, Add(device, handler)) == ItemExist && Holds(t.devices, device)
                 && t == c.(devices := [Item(Clip(device.deviceId.value), device)])
            else Answer(c, Add(device, handler)) == RetOk
  {
    OneDevice(device, device.deviceId.value);
    hide Find, With, Without, ToEach, Clip;
    assert [Item(Clip(device.deviceId.value), device)][0].value == device;
  }

  /** That device is there, and told of as leaving only: when it goes, an observer with both callbacks
      that was registered all along has been told as often of its arrivals as of its departures if it
      is the very device cleared away, and of one departure too many if it is another one. */
  lemma RemoveAfterReAdd(ops: seq<Op>, device: Device, handler: nat, r: nat)
    requires NoClear(ops) && device.deviceId.Some? && Find(Run(ops).devices, device.deviceId.value).Some?
    requires r < |Run(ops).made| && Holds(Run(ops).observers, Run(ops).made[r])
    requires Run(ops).made[r].onAdded && Run(ops).made[r].onRemoved
    ensures var t := Step(Run(ops + [Clear]), Add(device, handler));
            var u := Step(t, Remove(device.deviceId.value));
            && Answer(t, Remove(device.deviceId.value)) == RetOk && u.devices == []
            && Net(u.log, r, device) == if Holds(Run(ops).devices, device) then 0 else -1
  {
    var s, id := Run(ops), device.deviceId.value;
    RunOn(ops, Clear);
    KeysAlike(ops, id);
    DevicesHaveHandlers(ops);
    ObserversKnowTheDevices(ops);
    assert ToldOf(s, r, device) && Refs(s.observers, s.made);
    hide Run, Net, ToEach, Holds, Refs, Told, Keyed, Find, Sound, Step, Answer, With, Without;
    ReAdded(s, device, handler);
    RemoveReAdded(s.(devices := [Item(Clip(id), device)]), device);
    ClearIs(s);
    ToEachNet(s.observers, s.made, false, device, r, device);
    NetSum(s.log, ToEach(s.observers, false, device), r, device);
  }

  lemma ClearIs(s: State)
    ensures Step(s, Clear) == s.(devices := [])
  {
  }

  lemma RemoveReAdded(t: State, device: Device)
    requires device.deviceId.Some? && t.devices == [Item(Clip(device.deviceId.value), device)]
    requires Find(t.handlers, device.deviceId.value).Some?
    ensures var remove := Remove(device.deviceId.value);
            && Answer(t, remove) == RetOk && Step(t, remove).devices == []
            && Step(t, remove).log == t.log + ToEach(t.observers, false, device)
  {
    OneDevice(device, device.deviceId.value);
    hide Find, With, Without, ToEach, Clip;
  }

  lemma OneDevice(device: Device, id: string)
    requires device.deviceId == Some(id)
    ensures Find<Device>([], id).None? && With([], id, device) == [Item(Clip(id), device)]
    ensures Find([Item(Clip(id), device)], id) == Some(device) && Without([Item(Clip(id), device)], id) == []
  {
    IndexOfMeans([Item(Clip(id), device)], id);
    assert Clip(Clip(id)) == Clip(id);
  }

  // ---- every run, Clear included ----

  predicate DevicesCovered(s: State) {
    forall k :: k in MapOf(s.devices) ==> k in MapOf(s.handlers)
  }

  // The identifiers, as keys, of the devices that the operations leave.
  function DeviceIds(ops: seq<Op>): set<string> {
    if ops == [] then {}
    else
      var ids := DeviceIds(ops[..|ops| - 1]);
      match ops[|ops| - 1]
      case Add(device, _) => if device.deviceId.None? then ids else ids + {Clip(device.deviceId.value)}
      case Remove(id) => ids - {Clip(id)}
      case Clear => {}
      case _ => ids
  }

  // The identifiers cleared away, and not removed as those of devices added again.
  function Orphans(ops: seq<Op>): set<string> {
    if ops == [] then {}
    else
      var was := ops[..|ops| - 1];
      match ops[|ops| - 1]
      case Remove(id) => if Clip(id) in DeviceIds(was) then Orphans(was) - {Clip(id)} else Orphans(was)
      case Clear => Orphans(was) + DeviceIds(was)
      case _ => Orphans(was)
  }

  lemma AddParts(s: State, device: Device, handler: nat)
    requires device.deviceId.Some?
    requires Find(s.devices, device.deviceId.value).Some? ==> Find(s.handlers, device.deviceId.value).Some?
    ensures var t, id := Step(s, Add(device, handler)), device.deviceId.value;
            t.devices == With(s.devices, id, device) && t.handlers == With(s.handlers, id, handler)
  {
    hide IndexOf, ToEach, Clip;
  }

  lemma AddIds(s: State, device: Device, handler: nat)
    requires Keyed(s.devices) && Keyed(s.handlers) && device.deviceId.Some?
    requires KeySet(s.devices) <= KeySet(s.handlers)
    ensures var t, key := Step(s, Add(device, handler)), Clip(device.deviceId.value);
            && KeySet(t.devices) == KeySet(s.devices) + {key}
            && KeySet(t.handlers) == KeySet(s.handlers) + {key}
  {
    hide Keyed, Find, With, KeySet, Step, Clip;
    var id := device.deviceId.value;
    FindHas(s.devices, id);
    FindHas(s.handlers, id);
    AddParts(s, device, handler);
    KeysWith(s.devices, id, device);
    KeysWith(s.handlers, id, handler);
  }

  lemma SoundKeyed(s: State)
    requires Sound(s)
    ensures Keyed(s.devices) && Keyed(s.handlers)
  {
  }

  lemma RemoveIds(s: State, id: string)
    requires Keyed(s.devices) && Keyed(s.handlers)
    ensures var t := Step(s, Remove(id));
            && KeySet(t.devices) == KeySet(s.devices) - {Clip(id)}
            && KeySet(t.handlers) ==
               if Clip(id) in KeySet(s.devices) then KeySet(s.handlers) - {Clip(id)} else KeySet(s.handlers)
  {
    KeysWithout(s.devices, id);
    KeysWithout(s.handlers, id);
    FindHas(s.devices, id);
    hide Sound, Find, Without, ToEach, Clip, KeySet;
    assert Clip(id) !in KeySet(s.devices) ==> KeySet(s.devices) - {Clip(id)} == KeySet(s.devices);
  }

  /** In every run the devices are those added and neither removed nor cleared away since, and the
      handlers are theirs and those of the devices cleared away, until such a device is added again
      and removed. */
  lemma {:induction false} HandlersLeft(ops: seq<Op>)
    ensures KeySet(Run(ops).devices) == DeviceIds(ops)
    ensures KeySet(Run(ops).handlers) == DeviceIds(ops) + Orphans(ops)
  {
    hide Step, Sound, KeySet;
    if ops == [] {
      NoKeys();
    } else {
      var s, op := Run(ops[..|ops| - 1]), ops[|ops| - 1];
      HandlersLeft(ops[..|ops| - 1]);
      AlwaysSound(ops[..|ops| - 1]);
      SoundKeyed(s);
      hide Clip;
      if op.Add? && op.device.deviceId.Some? {
        AddIds(s, op.device, op.handler);
      } else if op.Remove? {
        RemoveIds(s, op.deviceId);
      } else {
        OtherIds(s, op);
      }
    }
  }

  lemma OtherIds(s: State, op: Op)
    requires !op.Remove? && (op.Add? ==> op.device.deviceId.None?)
    ensures Step(s, op).devices == (if op.Clear? then [] else s.devices) && Step(s, op).handlers == s.handlers
    ensures KeySet<Device>([]) == {}
  {
    hide Find, With, Without, ToEach, OfEach;
  }

  lemma NoKeys()
    ensures KeySet<Device>([]) == {} && KeySet<nat>([]) == {}
  {
  }

  /** In every run, Clear included, each device has a handler under its key; and there are no other
      handlers exactly when nothing was left behind. */
  lemma EveryDeviceHasAHandler(ops: seq<Op>)
    ensures DevicesCovered(Run(ops))
    ensures KeySet(Run(ops).devices) == KeySet(Run(ops).handlers) <==> Orphans(ops) <= DeviceIds(ops)
  {
    HandlersLeft(ops);
    hide Run, MapOf, DeviceIds, Orphans;
  }

  /** So a device can be added exactly if its identifier belongs to no device and was not left behind. */
  lemma AddedExactly(ops: seq<Op>, device: Device, handler: nat)
    requires device.deviceId.Some?
    ensures Answer(Run(ops), Add(device, handler)) == RetOk <==>
            Clip(device.deviceId.value) !in DeviceIds(ops) + Orphans(ops)
  {
    HandlersLeft(ops);
    AlwaysSound(ops);
    FindHas(Run(ops).devices, device.deviceId.value);
    FindHas(Run(ops).handlers, device.deviceId.value);
    hide Run, Find, KeySet, Clip;
  }

  method Perform(p: UpnpProvider, op: Op) returns (ret: TinyRet)
    modifies p
    ensures p.Snapshot() == Step(old(p.Snapshot()), op) && ret == Answer(old(p.Snapshot()), op)
  {
    hide Step, Find;
    match op
    case Add(device, handler) => ret := p.Add(device, handler);
    case Remove(deviceId) => ret := p.Remove(deviceId);
    case AddObserver(name, onAdded, onRemoved) => ret := p.AddObserver(name, onAdded, onRemoved);
    case RemoveObserver(name) => ret := p.RemoveObserver(name);
    case Clear =>
      p.Clear();
      ret := RetOk;
  }

  /** The calls one by one on a new provider: the devices are those added and not removed or cleared
      away since, the handlers theirs and those that Clear left behind; and while none of the calls
      is Clear, no handler is without its device and every observer knows the devices. */
  method Serve(ops: seq<Op>) returns (p: UpnpProvider)
    ensures fresh(p) && p.Snapshot() == Run(ops)
    ensures KeySet(p.devices) == DeviceIds(ops) && KeySet(p.handlers) == DeviceIds(ops) + Orphans(ops)
    ensures NoClear(ops) ==> Keys(p.devices) == Keys(p.handlers) && Told(p.Snapshot())
  {
    hide Step, Told, Keys, KeySet, DeviceIds, Orphans;
    p := new UpnpProvider();
    var i := 0;
    while i < |ops|
      invariant i <= |ops| && fresh(p) && p.Snapshot() == Run(ops[..i])
    {
      assert ops[..i + 1][..i] == ops[..i];
      var _ := Perform(p, ops[i]);
      i := i + 1;
    }
    assert ops[..i] == ops;
    HandlersLeft(ops);
    if NoClear(ops) {
      DevicesHaveHandlers(ops);
      ObserversKnowTheDevices(ops);
    }
  }
}
