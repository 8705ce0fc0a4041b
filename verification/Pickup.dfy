/**
  The exclusive pickup: items in lanes, locks that one atomic create can win, and
  the records holders leave of what they processed. The directory is one
  map from name to content, a reader is a small program counter, and a run is
  any interleaving of the readers' atomic file operations.
 */
module Pickup {
  import opened Options

  const KEYS: nat := 2
  const PER_KEY: nat := 3
  const SCANS: nat := 64

  type Lane = nat
  type Holder = string

  datatype Item = Item(lane: Lane, key: nat, seqNo: nat)

  datatype Name =
    | ItemFile(item: Item)
    | ItemLock(item: Item)
    | KeyLock(lane: Lane, key: nat)
    | Done(item: Item, holder: Holder)

  datatype Signature = Signature(order: nat, injected: bool)

  /** `maker` notes which reader created the file. It is not on disk and no step
      reads it: the properties are about it. A record's text is `None` between
      the create and the write of a done record. */
  datatype Content =
    | Payload
    | Lock(maker: nat)
    | Record(maker: nat, text: Option<Signature>)

  type Files = map<Name, Content>

  /** One reader thread: how it signs, the clock its process counts by, whether
      it scans every lane or its own alone, and whether its claim was dropped. */
  datatype Reader = Reader(holder: Holder, clock: nat, shared: bool, own: Lane, broken: bool)

  /** Everything that reads one style's directory: `ordered` is the style's. */
  datatype System = System(ordered: bool, lanes: set<Lane>, readers: seq<Reader>) {
    ghost predicate Valid() {
      forall i :: 0 <= i < |readers| ==> readers[i].own in lanes
    }

    predicate Honest(i: nat) {
      i < |readers| && !readers[i].broken
    }

    function LockOf(item: Item): Name {
      if ordered then KeyLock(item.lane, item.key) else ItemLock(item)
    }

    /** What every lane is staged with. */
    predicate Has(item: Item) {
      item.lane in lanes && item.key < KEYS && item.seqNo < PER_KEY
    }

    function Items(): (items: set<Item>)
      ensures forall item :: item in items <==> Has(item)
    {
      set lane, key, seqNo | lane in lanes && 0 <= key < KEYS && 0 <= seqNo < PER_KEY :: Item(lane, key, seqNo)
    }

    function Passes(i: nat): nat
      requires i < |readers|
    {
      if readers[i].broken then 1 else SCANS
    }
  }

  /** The atomic operations of processing one item, in order. */
  datatype Step = Read | Tick | Sign | Write | Remove

  /** Where a reader stands. `Processing` returns to `next`. */
  datatype Control =
    | Passing(pass: nat)
    | Laning(pass: nat, lanes: seq<Lane>)
    | Picking(pass: nat, lanes: seq<Lane>, items: seq<Item>)
    | Keying(pass: nat, lanes: seq<Lane>, lane: Lane, key: nat)
    | Draining(pass: nat, lanes: seq<Lane>, lane: Lane, key: nat, seqNo: nat)
    | Processing(step: Step, item: Item, order: nat, next: Control)
    | Checking(pass: nat)
    | Finished

  datatype State = State(files: Files, clocks: map<nat, nat>, control: seq<Control>) {
    function Clock(clock: nat): nat {
      if clock in clocks then clocks[clock] else 0
    }
  }

  /** One step of one reader, with what a directory listing would show it. */
  datatype Event = Event(reader: nat, lanes: seq<Lane>, items: seq<Item>)

  /** Every lane staged, every reader about to start. A lane staged later is a
      lane no reader listed earlier. */
  function Init(sys: System): State {
    State(map item | item in sys.Items() :: ItemFile(item) := Payload,
          map[],
          seq(|sys.readers|, _ => Passing(0)))
  }

  /** A listing of a lane shows every item that is there when it ends and may
      still show one that has gone meanwhile: the listing is not atomic. */
  ghost predicate ListsItems(sys: System, files: Files, lane: Lane, items: seq<Item>) {
    && (forall item :: item in items ==> sys.Has(item) && item.lane == lane)
    && (forall item :: sys.Has(item) && item.lane == lane && ItemFile(item) in files ==> item in items)
  }

  /** A listing of the style's directory shows the reader's own lane, staged
      before it started, and whichever others. */
  ghost predicate ListsLanes(sys: System, own: Lane, lanes: seq<Lane>) {
    own in lanes && forall lane :: lane in lanes ==> lane in sys.lanes
  }

  function Goto(s: State, i: nat, control: Control): State
    requires i < |s.control|
  {
    s.(control := s.control[i := control])
  }

  ghost function Next(sys: System, s: State, e: Event): State
    requires |s.control| == |sys.readers|
  {
    if e.reader >= |sys.readers| then s else
    var i, c := e.reader, s.control[e.reader];
    if c.Processing? then Process(sys, s, i)
    else if c.Picking? && c.items != [] && !sys.readers[i].broken then
      var next := c.(items := c.items[1..]);
      Claim(s, i, ItemLock(c.items[0]), Processing(Read, c.items[0], 0, next), next)
    else if c.Keying? && c.key < KEYS then
      Claim(s, i, KeyLock(c.lane, c.key), Draining(c.pass, c.lanes, c.lane, c.key, 0), Keying(c.pass, c.lanes, c.lane, c.key + 1))
    else Goto(s, i, Moved(sys, s, e))
  }

  /** Where a step that touches no file leads; nowhere while the event's
      listing is not one the directory could show. */
  ghost function Moved(sys: System, s: State, e: Event): Control
    requires e.reader < |s.control| == |sys.readers|
  {
    var i, r, c := e.reader, sys.readers[e.reader], s.control[e.reader];
    match c
    case Passing(pass) =>
      if pass >= sys.Passes(i) then Finished
      else if !r.shared then Laning(pass, [r.own])
      else if ListsLanes(sys, r.own, e.lanes) then Laning(pass, e.lanes)
      else c
    case Laning(pass, lanes) =>
      if lanes == [] then Checking(pass)
      else if sys.ordered && !r.broken then Keying(pass, lanes[1..], lanes[0], 0)
      else if ListsItems(sys, s.files, lanes[0], e.items) then Picking(pass, lanes[1..], e.items)
      else c
    case Picking(pass, lanes, items) =>
      if items == [] then Laning(pass, lanes)
      else Processing(Read, items[0], 0, c.(items := items[1..]))
    case Keying(pass, lanes, _, _) => Laning(pass, lanes)
    case Draining(pass, lanes, lane, key, seqNo) =>
      if seqNo >= PER_KEY then Keying(pass, lanes, lane, key + 1)
      else Processing(Read, Item(lane, key, seqNo), 0, Draining(pass, lanes, lane, key, seqNo + 1))
    case Checking(pass) =>
      if !ListsItems(sys, s.files, r.own, e.items) then c
      else if e.items == [] then Finished
      else Passing(pass + 1)
    case _ => c
  }

  /** The atomic create of a lock: its one creator wins, everyone else loses. */
  function Claim(s: State, i: nat, lock: Name, won: Control, lost: Control): State
    requires i < |s.control|
  {
    if lock in s.files then Goto(s, i, lost)
    else Goto(s.(files := s.files[lock := Lock(i)]), i, won)
  }

  /** Read the item, draw an order, create the done record, write it, and
      consume the item; a broken reader leaves it where it is. */
  function Process(sys: System, s: State, i: nat): State
    requires i < |s.control| == |sys.readers| && s.control[i].Processing?
  {
    var r, c := sys.readers[i], s.control[i];
    var done := Done(c.item, r.holder);
    match c.step
    case Read => Goto(s, i, if ItemFile(c.item) in s.files then c.(step := Tick) else c.next)
    case Tick =>
      var order := s.Clock(r.clock);
      Goto(s.(clocks := s.clocks[r.clock := order + 1]), i, c.(step := Sign, order := order))
    case Sign =>
      if done in s.files then Goto(s, i, c.(step := Remove))
      else Goto(s.(files := s.files[done := Record(i, None)]), i, c.(step := Write))
    case Write =>
      Goto(s.(files := s.files[done := Record(i, Some(Signature(c.order, r.broken)))]), i, c.(step := Remove))
    case Remove =>
      Goto(if r.broken then s else s.(files := s.files - {ItemFile(c.item)}), i, c.next)
  }

  /** The state a run of events leads to: every interleaving is some run. */
  ghost function After(sys: System, s: State, run: seq<Event>): (s': State)
    requires |s.control| == |sys.readers|
    ensures |s'.control| == |sys.readers|
  {
    if run == [] then s else Next(sys, After(sys, s, run[..|run| - 1]), run[|run| - 1])
  }

  /** What a done record says of an item and its holder. */
  datatype Processed = Processed(item: Item, holder: Holder, order: nat, injected: bool)

  /** A record not yet written reads back as order zero and not injected. */
  function View(item: Item, holder: Holder, content: Content): Processed {
    match content
    case Record(_, Some(signed)) => Processed(item, holder, signed.order, signed.injected)
    case _ => Processed(item, holder, 0, false)
  }

  /** `led` lists every done record of the lane once, in whatever order the
      directory gives them. */
  ghost predicate IsLedger(files: Files, lane: Lane, led: seq<Processed>) {
    && (forall p :: p in led ==>
          && p.item.lane == lane && Done(p.item, p.holder) in files
          && p == View(p.item, p.holder, files[Done(p.item, p.holder)]))
    && (forall n :: n in files && n.Done? && n.item.lane == lane ==> View(n.item, n.holder, files[n]) in led)
    && (forall i, j :: 0 <= i < j < |led| ==> led[i] != led[j])
  }
}
