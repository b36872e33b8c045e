/** COM objects (`wrapper.rs`, `smart_ptr.rs`): one allocation, one count, several interface
  * pointers that find the object through a parent pointer, and optionally an outer object
  * that IUnknown calls are delegated to. */
module ComObjects {
  import opened Basics
  import opened RefCount
  import opened ComIdentity

  /** The controlling object of an aggregate, seen through its count. */
  class Outer {
    var refCount: nat

    constructor (n: nat)
      ensures refCount == n
    {
      refCount := n;
    }
  }

  /** `InterfaceEntryN` and `NonDelegatingIUnknownN`: a vtable and the pointer back to the object. */
  class Entry {
    const iid: GUID
    var parent: ComObject?

    constructor (iid: GUID)
      ensures this.iid == iid && parent == null
    {
      this.iid := iid;
      parent := null;
    }
  }

  /** An interface pointer: the primary, a secondary entry, or the non-delegating IUnknown. */
  datatype Ptr = Main(o: ComObject) | Side(e: Entry) | Inner(e: Entry)

  /** The cell that `ppv` points to: an interface pointer, or null. */
  class OutCell {
    var value: Option<Ptr>

    constructor (value: Option<Ptr>)
      ensures this.value == value
    {
      this.value := value;
    }
  }

  /** How a QueryInterface call ends: with success; without the interface; with a null argument,
    * which is also reported as no interface; or with whatever the outer object answers.
    * `Stopped` is the end of the machine in the hardened counter. */
  datatype Query =
    | Found(p: Ptr)
    | NotFound
    | BadPointers
    | Delegated
    | Stopped

  /** Who owns references to an object: smart pointers and raw pointers to its primary and
    * secondary interfaces, and raw pointers to the non-delegating IUnknown. */
  datatype Owned = Owned(rcs: nat, raws: nat, inside: nat)

  /** A secondary finds the object through its parent pointer; the primary is the object. */
  function Follow(p: Ptr): (o: ComObject?)
    reads if p.Main? then {} else {p.e}
  {
    match p
    case Main(o) => o
    case Side(e) => e.parent
    case Inner(e) => e.parent
  }

  class ComObject {
    const decl: Decl
    const outer: Outer?
    const refCount: AtomicCounter
    const unknown: Entry
    var entries: seq<Entry>
    var drops: nat
    var frees: nat

    ghost var owned: Owned
    ghost var elsewhere: nat // references to the outer object that are not through this one

    /** The parent pointers lead back. */
    ghost predicate Linked()
      reads this, entries, unknown
    {
      && |entries| == |decl.secondaries|
      && (forall i :: 0 <= i < |entries| ==> entries[i].iid == decl.secondaries[i] && entries[i].parent == this)
      && unknown.parent == this && unknown.iid == IID_IUNKNOWN
      && unknown !in entries
    }

    /** The object's own count when these references are owned. */
    ghost function OwnCount(w: Owned): nat {
      if outer == null then w.rcs + w.raws + w.inside else w.inside
    }

    /** Every count equals the references owned, and the value inside is dropped and the
      * block freed once, when the object's own count reaches zero. */
    ghost predicate Ledger()
      reads this, outer, refCount
    {
      && refCount.value == OwnCount(owned)
      && (outer != null ==> outer.refCount == elsewhere + owned.rcs + owned.raws)
      && drops == Bit(refCount.value == 0) && frees == drops
    }

    ghost predicate Valid()
      reads this, entries, unknown, outer, refCount
    {
      Linked() && Ledger()
    }

    /** One of the interface pointers of this object. */
    ghost predicate Has(p: Ptr)
      reads this
    {
      match p
      case Main(o) => o == this
      case Side(e) => e in entries
      case Inner(e) => e == unknown
    }

    /** `try_new_in` and `try_new_aggregated_in`: the object is written with null parent
      * pointers, which are patched afterwards. An aggregated object is handed out by its
      * non-delegating pointer, and it may be given a null outer object. */
    constructor (mode: Mode, decl: Decl, aggregated: bool, outer: Outer?)
      requires outer != null ==> aggregated
      ensures Valid() && fresh(entries) && fresh(refCount) && fresh(unknown)
      ensures refCount.mode == mode && this.decl == decl && this.outer == outer
      ensures owned == if aggregated then Owned(0, 0, 1) else Owned(0, 1, 0)
      ensures drops == 0
    {
      this.decl, this.outer := decl, outer;
      drops, frees := 0, 0;
      owned := if aggregated then Owned(0, 0, 1) else Owned(0, 1, 0);
      elsewhere := if outer == null then 0 else outer.refCount;
      var nd := new Entry(IID_IUNKNOWN);
      unknown := nd;
      var list: seq<Entry> := [];
      while |list| < |decl.secondaries|
        invariant |list| <= |decl.secondaries| && fresh(list) && nd !in list
        invariant forall i :: 0 <= i < |list| ==> list[i].iid == decl.secondaries[i]
      {
        var e := new Entry(decl.secondaries[|list|]);
        list := list + [e];
      }
      entries := list;
      var cell := new AtomicCounter(mode, 1);
      refCount := cell;
      new;
      unknown.parent := this;
      for k := 0 to |entries|
        invariant entries == list && unknown == nd
        invariant unknown.parent == this && Ledger() && drops == 0
        invariant owned == if aggregated then Owned(0, 0, 1) else Owned(0, 1, 0)
        invariant forall i :: 0 <= i < k ==> entries[i].parent == this
      {
        entries[k].parent := this;
      }
    }

    /** The plain counter has room for one more reference. */
    ghost predicate Countable()
      reads refCount
    {
      refCount.mode.Plain? ==> refCount.value < 0xFFFF_FFFF
    }

    /** The hardened counter has none left. */
    ghost predicate AtLimit()
      reads refCount
    {
      refCount.mode.Hardened? && refCount.value >= MAX_REFCOUNT
    }

    /** The drop half of the release shims: the value inside is dropped, the count is looked
      * at again, and the block goes back to the allocator. */
    method Destroy()
      requires refCount.value == 0
      modifies this`drops, this`frees
      ensures drops == old(drops) + 1 && frees == old(frees) + 1
    {
      drops := drops + 1;
      var resurrected := refCount.value;
      if resurrected == 0 {
        frees := frees + 1;
      }
    }
  }

  /** The outcome of AddRef and Release: the count reported, unless the counter stopped. */
  datatype Charged = Refused | Count(n: nat)

  /** One more, and one less, raw reference through a pointer. */
  function Gain(w: Owned, p: Ptr): Owned {
    if p.Inner? then w.(inside := w.inside + 1) else w.(raws := w.raws + 1)
  }

  function Lose(w: Owned, p: Ptr): Owned
    requires if p.Inner? then w.inside > 0 else w.raws > 0
  {
    if p.Inner? then w.(inside := w.inside - 1) else w.(raws := w.raws - 1)
  }

  /** All the AddRef shims. In an aggregate only the non-delegating pointer moves the object's
    * own count, and every other pointer moves only the outer one. */
  method AddRef(p: Ptr, ghost o: ComObject) returns (r: Charged)
    requires o.Valid() && o.Has(p) && o.refCount.value > 0 && o.Countable()
    modifies o`owned, o.refCount, o.outer
    ensures o.Valid()
    ensures r.Refused? <==> old(o.AtLimit()) && (p.Inner? || o.outer == null)
    ensures o.owned == if r.Refused? then old(o.owned) else Gain(old(o.owned), p)
    ensures r.Count? && o.outer != null && !p.Inner? ==>
              r.n == o.outer.refCount == old(o.outer.refCount) + 1 && o.refCount.value == old(o.refCount.value)
    ensures r.Count? && (o.outer == null || p.Inner?) ==>
              r.n == o.refCount.value == old(o.refCount.value) + 1
    ensures o.outer != null && p.Inner? ==> o.outer.refCount == old(o.outer.refCount)
  {
    var w := Follow(p);
    assert w == o;
    if !p.Inner? && w.outer != null {
      w.outer.refCount := w.outer.refCount + 1;
      r := Count(w.outer.refCount);
    } else {
      var c := w.refCount.Increment();
      if c.Halted? {
        return Refused;
      }
      r := Count(c.n);
    }
    o.owned := Gain(o.owned, p);
  }

  /** All the Release shims: the object goes away when its own last reference does. */
  method Release(p: Ptr, ghost o: ComObject) returns (r: Charged)
    requires o.Valid() && o.Has(p) && o.refCount.value > 0
    requires if p.Inner? then o.owned.inside > 0 else o.owned.raws > 0
    modifies o`owned, o`drops, o`frees, o.refCount, o.outer
    ensures o.Valid()
    ensures o.owned == Lose(old(o.owned), p)
    ensures o.drops == Bit(o.OwnCount(o.owned) == 0)
    ensures r.Count?
    ensures o.outer != null && !p.Inner? ==>
              r.n == o.outer.refCount == old(o.outer.refCount) - 1 && o.refCount.value == old(o.refCount.value)
    ensures o.outer == null || p.Inner? ==> r.n == o.refCount.value == old(o.refCount.value) - 1
    ensures o.outer != null && p.Inner? ==> o.outer.refCount == old(o.outer.refCount)
  {
    var w := Follow(p);
    assert w == o;
    if !p.Inner? && w.outer != null {
      w.outer.refCount := w.outer.refCount - 1;
      r := Count(w.outer.refCount);
    } else {
      var c := w.refCount.Decrement();
      if c.n == 0 {
        w.Destroy();
      }
      r := Count(c.n);
    }
    o.owned := Lose(o.owned, p);
  }

  /** The pointer at a place found by the IID comparisons. */
  function PtrAt(o: ComObject, place: Place): Ptr
    requires place.ToSecondary? ==> place.i < |o.entries|
    reads o
  {
    match place
    case ToPrimary => Main(o)
    case ToSecondary(i) => Side(o.entries[i])
  }

  /** The interface whose vtable a pointer carries. */
  ghost function IidOf(p: Ptr): GUID {
    match p
    case Main(o) => o.decl.primary
    case Side(e) => e.iid
    case Inner(e) => e.iid
  }

  /** The pointer answered when the interface `riid` is asked for through `p`. */
  ghost function Answer(p: Ptr, riid: GUID): Query
    requires var o := Follow(p); o != null && |o.entries| == |o.decl.secondaries|
    reads if p.Main? then {} else {p.e}
    reads Follow(p)
  {
    var o := Follow(p);
    if !p.Inner? && o.outer != null then Delegated
    else if p.Inner? && riid == IID_IUNKNOWN then Found(p)
    else
      LookupFinds(o.decl, riid);
      match Lookup(o.decl, riid)
      case None => NotFound
      case Some(place) => Found(PtrAt(o, place))
  }

  /** All the QueryInterface shims: success writes the pointer and hands out one more reference
    * through it, and everything else leaves every count alone. A failure that the object
    * itself reports nulls the output exactly when it was asked for an interface at all: with a
    * null `riid` the cell keeps what it held. */
  method QueryInterface(p: Ptr, riid: Option<GUID>, ppv: OutCell?, ghost o: ComObject) returns (q: Query)
    requires o.Valid() && o.Has(p) && o.refCount.value > 0 && o.Countable()
    modifies o`owned, o.refCount, o.outer, ppv
    ensures o.Valid()
    ensures q.Delegated? <==> !p.Inner? && o.outer != null
    ensures !q.Delegated? ==> (q.BadPointers? <==> riid.None? || ppv == null)
    ensures !q.BadPointers? && !q.Delegated? ==> Follow(p) == o && (q == Answer(p, riid.value) || q.Stopped?)
    ensures q.Found? ==> o.Has(q.p) && ppv != null && ppv.value == Some(q.p)
    ensures q.NotFound? ==> ppv != null && ppv.value == None
    ensures q.BadPointers? && ppv != null ==> riid.None? && ppv.value == old(ppv.value)
    ensures (q.NotFound? || q.BadPointers?) && ppv != null ==>
              (ppv.value == None <==> riid.Some? || old(ppv.value) == None)
    ensures q.Stopped? ==> old(o.AtLimit())
    ensures o.owned == if q.Found? then Gain(old(o.owned), q.p) else old(o.owned)
    ensures o.outer != null && !q.Found? ==> o.outer.refCount == old(o.outer.refCount)
  {
    var w := Follow(p);
    assert w == o;
    if !p.Inner? && w.outer != null {
      return Delegated;
    }
    if ppv == null || riid.None? {
      return BadPointers;
    }
    var target := Find(p, riid.value, o);
    if target.None? {
      ppv.value := None;
      return NotFound;
    }
    var r := AddRef(target.value, o);
    if r.Refused? {
      return Stopped;
    }
    ppv.value := target;
    q := Found(target.value);
  }

  /** The IID comparisons: the non-delegating pointer is its own IUnknown, and everything else is
    * looked up among the interfaces of the object that the pointer leads to. */
  method Find(p: Ptr, riid: GUID, ghost o: ComObject) returns (target: Option<Ptr>)
    requires o.Linked() && o.Has(p) && (p.Inner? || o.outer == null)
    ensures Follow(p) == o && Answer(p, riid) == if target.None? then NotFound else Found(target.value)
    ensures target.Some? ==> o.Has(target.value)
  {
    var w := Follow(p);
    assert w == o;
    if p.Inner? && riid == IID_IUNKNOWN {
      return Some(p);
    }
    LookupFinds(w.decl, riid);
    match Lookup(w.decl, riid) {
      case None => target := None;
      case Some(place) => target := Some(PtrAt(w, place));
    }
  }

  /** The COM rule that a failed call nulls its output does not hold of a null `riid`: for every
    * object and pointer, the cell keeps whatever pointer it held before. */
  method NullRiidKeepsOutput(p: Ptr, stale: Ptr, ghost o: ComObject) returns (q: Query, cell: OutCell)
    requires o.Valid() && o.Has(p) && o.refCount.value > 0 && o.Countable() && o.outer == null
    modifies o`owned, o.refCount
    ensures q == BadPointers && fresh(cell) && cell.value == Some(stale)
    ensures o.owned == old(o.owned)
  {
    cell := new OutCell(Some(stale));
    q := QueryInterface(p, None, cell, o);
  }

  /** Microsoft's rules for QueryInterface, for an object that is its own identity: the answer
    * does not depend on the interface asked; IUnknown is always the primary pointer; success
    * is reflexive, symmetric and transitive; what is answered belongs to the object, leads
    * back to it, and carries the vtable asked for. */
  lemma QueryLaws(o: ComObject, p: Ptr, q: Ptr, a: GUID, b: GUID)
    requires o.Valid() && o.outer == null
    requires o.Has(p) && o.Has(q) && !p.Inner? && !q.Inner?
    ensures Follow(p) == o && Follow(q) == o
    ensures Answer(p, a) == Answer(q, a)
    ensures Answer(p, IID_IUNKNOWN) == Found(Main(o))
    ensures Answer(p, IidOf(p)).Found?
    ensures Answer(p, a) == Found(q) ==> Answer(q, IidOf(p)).Found?
    ensures Answer(p, a) == Found(q) && Answer(q, b).Found? ==> Answer(p, b) == Answer(q, b)
    ensures Answer(p, a).Found? ==>
              var r := Answer(p, a).p;
              o.Has(r) && Follow(r) == o
              && (IidOf(r) == a || (r == Main(o) && (a == IID_IUNKNOWN || a in o.decl.parents)))
    ensures Answer(p, a).Found? || Answer(p, a) == NotFound
  {
    LookupFinds(o.decl, a);
    LookupFinds(o.decl, IidOf(p));
    if p.Side? {
      var i :| 0 <= i < |o.entries| && o.entries[i] == p.e;
      assert p.e.iid == o.decl.secondaries[i];
    }
  }

  /** An aggregated object: its non-delegating pointer is its own IUnknown, answers every other
    * interface with a pointer that delegates, and is what no other interface ever answers. */
  lemma AggregateAnswers(o: ComObject, p: Ptr, a: GUID)
    requires o.Valid() && o.outer != null && o.Has(p)
    ensures Follow(p) == o && Follow(Inner(o.unknown)) == o
    ensures Answer(Inner(o.unknown), IID_IUNKNOWN) == Found(Inner(o.unknown))
    ensures a != IID_IUNKNOWN ==>
              var r := Answer(Inner(o.unknown), a);
              (r.Found? <==> a == o.decl.primary || a in o.decl.secondaries || a in o.decl.parents)
              && (r.Found? ==> o.Has(r.p) && !r.p.Inner? && Answer(r.p, a) == Delegated)
    ensures !p.Inner? ==> Answer(p, a) == Delegated
  {
    LookupFinds(o.decl, a);
    if p.Side? {
      var i :| 0 <= i < |o.entries| && o.entries[i] == p.e;
    }
  }

  // ---- smart pointers ----

  /** `ComRc`: an interface pointer that owns one reference. */
  datatype ComRc = ComRc(ptr: Ptr)

  /** `from_raw` takes over a raw reference and `into_raw` gives it back: no count moves. */
  method FromRaw(p: Ptr, ghost o: ComObject) returns (rc: ComRc)
    requires o.Valid() && o.Has(p) && !p.Inner? && o.owned.raws > 0
    modifies o`owned
    ensures o.Valid() && rc.ptr == p
    ensures o.owned == old(o.owned).(raws := old(o.owned.raws) - 1, rcs := old(o.owned.rcs) + 1)
  {
    rc := ComRc(p);
    o.owned := o.owned.(raws := o.owned.raws - 1, rcs := o.owned.rcs + 1);
  }

  method IntoRaw(rc: ComRc, ghost o: ComObject) returns (p: Ptr)
    requires o.Valid() && o.Has(rc.ptr) && !rc.ptr.Inner? && o.owned.rcs > 0
    modifies o`owned
    ensures o.Valid() && p == rc.ptr
    ensures o.owned == old(o.owned).(raws := old(o.owned.raws) + 1, rcs := old(o.owned.rcs) - 1)
  {
    p := rc.ptr;
    o.owned := o.owned.(raws := o.owned.raws + 1, rcs := o.owned.rcs - 1);
  }

  /** `from_raw_addref`, which is also what `clone` does: a new reference, then its owner. */
  method FromRawAddRef(p: Ptr, ghost o: ComObject) returns (rc: Option<ComRc>)
    requires o.Valid() && o.Has(p) && !p.Inner? && o.refCount.value > 0 && o.Countable()
    modifies o`owned, o.refCount, o.outer
    ensures o.Valid()
    ensures rc == if old(o.AtLimit()) && o.outer == null then None else Some(ComRc(p))
    ensures o.owned == old(o.owned).(rcs := old(o.owned.rcs) + Bit(rc.Some?))
  {
    var r := AddRef(p, o);
    if r.Refused? {
      return None;
    }
    var made := FromRaw(p, o);
    rc := Some(made);
  }

  /** Dropping a smart pointer releases the reference it owns. */
  method DropRc(rc: ComRc, ghost o: ComObject)
    requires o.Valid() && o.Has(rc.ptr) && !rc.ptr.Inner? && o.refCount.value > 0 && o.owned.rcs > 0
    modifies o`owned, o`drops, o`frees, o.refCount, o.outer
    ensures o.Valid()
    ensures o.owned == old(o.owned).(rcs := old(o.owned.rcs) - 1)
  {
    var p := IntoRaw(rc, o);
    var _ := Release(p, o);
  }

  /** `ComRc::query_interface`: a smart pointer to the interface found. */
  method QueryRc(rc: ComRc, riid: GUID, ghost o: ComObject) returns (q: Query)
    requires o.Valid() && o.Has(rc.ptr) && !rc.ptr.Inner? && o.refCount.value > 0 && o.Countable()
    modifies o`owned, o.refCount, o.outer
    ensures o.Valid()
    ensures q.Delegated? <==> o.outer != null
    ensures !q.Delegated? ==> Follow(rc.ptr) == o && (q == Answer(rc.ptr, riid) || q.Stopped?)
    ensures q.Stopped? ==> old(o.AtLimit())
    ensures o.owned == old(o.owned).(rcs := old(o.owned.rcs) + Bit(q.Found?))
  {
    var out := new OutCell(None);
    q := QueryInterface(rc.ptr, Some(riid), out, o);
    if q.Found? && out.value.Some? {
      var made := FromRaw(out.value.value, o);
      q := Found(made.ptr);
    }
  }

  // ---- every run of operations ----

  datatype Via = Primary | Secondary(i: nat) | NonDelegating

  datatype Op =
    | OpAddRef(v: Via)
    | OpRelease(v: Via)
    | OpQuery(v: Via, riid: Option<GUID>, ppv: bool)
    | OpFromRaw(v: Via)
    | OpIntoRaw(v: Via)
    | OpClone(v: Via)
    | OpDropRc(v: Via)
    | OpQueryRc(v: Via, iid: GUID)

  /** The bookkeeping of a client that owns `w`: what it owns after an operation, or nothing
    * when it has no right to the operation (no such pointer, nothing left to give up, or the
    * object is gone). */
  function Account(d: Decl, aggregated: bool, w: Owned, op: Op): Option<Owned> {
    var own := if aggregated then w.inside else w.rcs + w.raws + w.inside;
    if own == 0 || (op.v.Secondary? && op.v.i >= |d.secondaries|) then None
    else
      match op
      case OpAddRef(NonDelegating) => Some(w.(inside := w.inside + 1))
      case OpAddRef(_) => Some(w.(raws := w.raws + 1))
      case OpRelease(NonDelegating) => if w.inside == 0 then None else Some(w.(inside := w.inside - 1))
      case OpRelease(_) => if w.raws == 0 then None else Some(w.(raws := w.raws - 1))
      case OpQuery(v, riid, ppv) =>
        if riid.None? || !ppv || (aggregated && !v.NonDelegating?) then Some(w)
        else if v.NonDelegating? && riid.value == IID_IUNKNOWN then Some(w.(inside := w.inside + 1))
        else Some(w.(raws := w.raws + Bit(Provides(d, riid.value))))
      case OpFromRaw(v) =>
        if v.NonDelegating? || w.raws == 0 then None else Some(w.(raws := w.raws - 1, rcs := w.rcs + 1))
      case OpIntoRaw(v) =>
        if v.NonDelegating? || w.rcs == 0 then None else Some(w.(raws := w.raws + 1, rcs := w.rcs - 1))
      case OpClone(v) =>
        if v.NonDelegating? || w.rcs == 0 then None else Some(w.(rcs := w.rcs + 1))
      case OpDropRc(v) =>
        if v.NonDelegating? || w.rcs == 0 then None else Some(w.(rcs := w.rcs - 1))
      case OpQueryRc(v, iid) =>
        if v.NonDelegating? || w.rcs == 0 then None
        else Some(w.(rcs := w.rcs + Bit(!aggregated && Provides(d, iid))))
  }

  /** The interfaces an object has. */
  predicate Provides(d: Decl, iid: GUID) {
    iid == IID_IUNKNOWN || iid == d.primary || iid in d.secondaries || iid in d.parents
  }

  /** The books after a run, or nothing when some operation was not the client's right. */
  function Books(d: Decl, aggregated: bool, w: Owned, ops: seq<Op>): Option<Owned>
    decreases |ops|
  {
    if ops == [] then Some(w)
    else
      match Account(d, aggregated, w, ops[0])
      case None => None
      case Some(w') => Books(d, aggregated, w', ops[1..])
  }

  /** The interface pointer a client names. */
  method Pointer(o: ComObject, v: Via) returns (p: Ptr)
    requires o.Valid() && (v.Secondary? ==> v.i < |o.decl.secondaries|)
    ensures o.Has(p) && (p.Inner? <==> v.NonDelegating?)
  {
    match v {
      case Primary => p := Main(o);
      case Secondary(i) => p := Side(o.entries[i]);
      case NonDelegating => p := Inner(o.unknown);
    }
  }

  /** A query with a fresh output cell, or with a null one. */
  method PerformQuery(o: ComObject, p: Ptr, v: Via, riid: Option<GUID>, ppv: bool) returns (stopped: bool)
    requires o.Valid() && o.Countable() && o.Has(p) && (p.Inner? <==> v.NonDelegating?)
    requires Account(o.decl, o.outer != null, o.owned, OpQuery(v, riid, ppv)).Some?
    modifies o`owned, o.refCount, o.outer
    ensures o.Valid()
    ensures stopped ==> old(o.AtLimit()) && o.owned == old(o.owned)
    ensures !stopped ==> Some(o.owned) == Account(o.decl, o.outer != null, old(o.owned), OpQuery(v, riid, ppv))
  {
    if riid.Some? {
      LookupFinds(o.decl, riid.value);
    }
    var cell: OutCell? := null;
    if ppv {
      cell := new OutCell(None);
    }
    var q := QueryInterface(p, riid, cell, o);
    stopped := q.Stopped?;
  }

  /** One operation does what the client's books say, or stops at the hardened limit. */
  method Perform(o: ComObject, op: Op) returns (stopped: bool)
    requires o.Valid() && o.Countable()
    requires Account(o.decl, o.outer != null, o.owned, op).Some?
    modifies o`owned, o`drops, o`frees, o.refCount, o.outer
    ensures o.Valid()
    ensures stopped ==> old(o.AtLimit()) && o.owned == old(o.owned)
    ensures !stopped ==> Some(o.owned) == Account(o.decl, o.outer != null, old(o.owned), op)
  {
    stopped := false;
    var p := Pointer(o, op.v);
    match op {
      case OpAddRef(_) =>
        var r := AddRef(p, o);
        stopped := r.Refused?;
      case OpRelease(_) =>
        var _ := Release(p, o);
      case OpQuery(_, riid, ppv) =>
        stopped := PerformQuery(o, p, op.v, riid, ppv);
      case OpFromRaw(_) =>
        var _ := FromRaw(p, o);
      case OpIntoRaw(_) =>
        var _ := IntoRaw(ComRc(p), o);
      case OpClone(_) =>
        var rc := FromRawAddRef(p, o);
        stopped := rc.None?;
      case OpDropRc(_) =>
        DropRc(ComRc(p), o);
      case OpQueryRc(_, iid) =>
        LookupFinds(o.decl, iid);
        var q := QueryRc(ComRc(p), iid, o);
        stopped := q.Stopped?;
    }
  }

  /** One operation acquires at most one reference. */
  lemma AccountGrowsByOne(d: Decl, aggregated: bool, w: Owned, op: Op)
    requires Account(d, aggregated, w, op).Some?
    ensures var w' := Account(d, aggregated, w, op).value;
            w'.rcs + w'.raws + w'.inside <= w.rcs + w.raws + w.inside + 1 && w'.inside <= w.inside + 1
  {
    match op {
      case OpAddRef(v) => match v { case Primary => case Secondary(_) => case NonDelegating => }
      case OpRelease(v) => match v { case Primary => case Secondary(_) => case NonDelegating => }
      case OpQuery(_, _, _) =>
      case OpFromRaw(_) =>
      case OpIntoRaw(_) =>
      case OpClone(_) =>
      case OpDropRc(_) =>
      case OpQueryRc(_, _) =>
    }
  }

  /** Over any run of operations that a client has a right to, through any of the pointers,
    * the counts are the references owned: `Valid()` ties both counts to the client's books,
    * and the value inside is dropped, and its block freed, once, exactly when the books show
    * that the object's own references have run out. */
  method Run(o: ComObject, ops: seq<Op>) returns (done: nat)
    requires o.Valid()
    requires Books(o.decl, o.outer != null, o.owned, ops).Some?
    requires o.refCount.mode.Plain? ==> o.refCount.value + |ops| < U32_MODULUS
    modifies o`owned, o`drops, o`frees, o.refCount, o.outer
    ensures o.Valid() && done <= |ops|
    ensures done < |ops| ==> o.AtLimit()
    ensures done == |ops| ==> Books(o.decl, o.outer != null, old(o.owned), ops) == Some(o.owned)
    ensures o.drops == o.frees == Bit(o.OwnCount(o.owned) == 0)
  {
    done := 0;
    while done < |ops|
      invariant done <= |ops| && o.Valid()
      invariant Books(o.decl, o.outer != null, old(o.owned), ops)
             == Books(o.decl, o.outer != null, o.owned, ops[done..])
      invariant Books(o.decl, o.outer != null, o.owned, ops[done..]).Some?
      invariant o.refCount.mode.Plain? ==> o.refCount.value + |ops| - done < U32_MODULUS
    {
      assert ops[done..][0] == ops[done] && ops[done..][1..] == ops[done + 1..];
      AccountGrowsByOne(o.decl, o.outer != null, o.owned, ops[done]);
      var stopped := Perform(o, ops[done]);
      if stopped {
        return;
      }
      done := done + 1;
    }
    assert ops[done..] == [];
  }
}
