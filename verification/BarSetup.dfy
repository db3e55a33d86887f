/** The walk of `USB3Iface._setup_bars` of examples_en210/add.py over the six base
    address registers. It reads bit 2 of every register as "64 bits wide" and then
    passes over the next one; on an I/O bar that is an address bit. What the walk
    leaves, and exactly when no memory bar is lost to it. */
module BarSetup {
  import opened Bits
  import opened Wrappers
  import opened Bars

  // ---- what is passed over ---------------------------------------------------------

  /** An I/O register whose address has bit 2 set. */
  predicate Skips(slots: seq<Slot>, addr: seq<nat>, i: nat) {
    i < |slots| && i < |addr| && slots[i].Io? && addr[i] / 4 % 2 == 1
  }

  /** Length of the run of such registers that ends just before register i. */
  function RunBefore(slots: seq<Slot>, addr: seq<nat>, i: nat): nat {
    if i > 0 && Skips(slots, addr, i - 1) then 1 + RunBefore(slots, addr, i - 1) else 0
  }

  predicate LostAt(slots: seq<Slot>, addr: seq<nat>, i: nat) {
    i < |slots| && slots[i].Memory? && RunBefore(slots, addr, i) % 2 == 1
  }

  predicate Lossless(slots: seq<Slot>, addr: seq<nat>) {
    forall i :: 0 <= i < |slots| ==> !LostAt(slots, addr, i)
  }

  predicate FirstLost(slots: seq<Slot>, addr: seq<nat>, i: nat) {
    LostAt(slots, addr, i) && forall j :: 0 <= j < i ==> !LostAt(slots, addr, j)
  }

  /** Every memory bar has an entry. */
  predicate AllRecorded(slots: seq<Slot>, table: map<nat, Range>) {
    forall i :: 0 <= i < |slots| && slots[i].Memory? ==> i in table
  }

  // ---- the state of the walk ---------------------------------------------------------

  /** The table the allocation fills, by bar number. */
  function Table(done: seq<Range>): map<nat, Range>
    decreases |done|
  {
    if done == [] then map[] else Table(done[..|done| - 1])[done[|done| - 1].bar := done[|done| - 1]]
  }

  lemma TableSnoc(done: seq<Range>, r: Range)
    ensures Table(done + [r]) == Table(done)[r.bar := r]
  {
    assert (done + [r])[..|done|] == done;
  }

  /** Each range has been written to its bar. */
  predicate Programmed(slots: seq<Slot>, addr: seq<nat>, done: seq<Range>) {
    |addr| == |slots| && forall j :: 0 <= j < |done| ==>
      done[j].bar < |slots| && slots[done[j].bar].Memory? &&
      addr[done[j].bar] == Kept(slots[done[j].bar], done[j].base)
  }

  datatype State = State(bar: nat, mem: nat, pref: nat, bars: map<nat, Range>)

  /** The walk stands on the first register of a bar, reached by no I/O register. */
  predicate AtStart(slots: seq<Slot>, addr: seq<nat>, i: nat) {
    RunBefore(slots, addr, i) % 2 == 0 && (i < |slots| ==> slots[i] != High)
  }

  /** No memory bar has been passed over. */
  predicate OnTrack(slots: seq<Slot>, addr0: seq<nat>, s: State) {
    AtStart(slots, addr0, s.bar) &&
    forall j :: 0 <= j < s.bar && j < |slots| ==> !LostAt(slots, addr0, j) && (slots[j].Memory? ==> j in s.bars)
  }

  /** What was given out is in the table and in the hardware, and the rest of the
      plan is still to come. */
  predicate OnPlan(slots: seq<Slot>, addr: seq<nat>, all: seq<Range>, done: seq<Range>, s: State) {
    s.bars == Table(done) && Programmed(slots, addr, done) && Room(slots, done) &&
    (forall j :: 0 <= j < |done| ==> done[j].bar < s.bar) &&
    all == done + Plan(slots, s.bar, s.mem, s.pref)
  }

  predicate Untouched(slots: seq<Slot>, addr0: seq<nat>, addr: seq<nat>, s: State) {
    |addr| == |addr0| == |slots| &&
    forall j :: 0 <= j < |slots| && (j >= s.bar || !slots[j].Memory?) ==> addr[j] == addr0[j]
  }

  /** So far nothing is lost. */
  predicate Sound(slots: seq<Slot>, addr0: seq<nat>, addr: seq<nat>, all: seq<Range>, done: seq<Range>, s: State) {
    OnTrack(slots, addr0, s) && OnPlan(slots, addr, all, done, s) && Untouched(slots, addr0, addr, s)
  }

  /** The walk has passed over bar k, the first that it loses. */
  predicate Lost(slots: seq<Slot>, addr0: seq<nat>, addr: seq<nat>, s: State, k: nat) {
    k < s.bar && k !in s.bars && FirstLost(slots, addr0, k) && |addr| == |addr0| == |slots| &&
    (!slots[k].wide ==> addr[k] == addr0[k])
  }

  predicate Walked(slots: seq<Slot>, addr0: seq<nat>, addr: seq<nat>, all: seq<Range>, done: seq<Range>, s: State,
                   lost: Option<nat>) {
    match lost
    case None => Sound(slots, addr0, addr, all, done, s)
    case Some(k) => Lost(slots, addr0, addr, s, k)
  }

  function After(slots: seq<Slot>, i: nat): nat
    requires i < |slots|
  {
    if Wide(slots[i]) then i + 2 else i + 1
  }

  /** What the walk's next state is when it gives bar s.bar its range. */
  function Given(slots: seq<Slot>, s: State): State
    requires s.bar < |slots| && slots[s.bar].Memory?
  {
    var b := slots[s.bar];
    var base := if b.pref then s.pref else s.mem;
    var next := Up(base + Pow2(b.k));
    State(After(slots, s.bar), if b.pref then s.mem else next, if b.pref then next else s.pref,
          s.bars[s.bar := Range(s.bar, base, Pow2(b.k), b.pref)])
  }

  lemma TrackGiven(slots: seq<Slot>, addr0: seq<nat>, s: State)
    requires WellFormed(slots) && OnTrack(slots, addr0, s) && s.bar < 6 && slots[s.bar].Memory?
    ensures OnTrack(slots, addr0, Given(slots, s))
  {
    hide Up, Pow2;
    var i := s.bar;
    assert SlotOk(slots, i) && (i + 1 < 6 ==> SlotOk(slots, i + 1)) && (i + 2 < 6 ==> SlotOk(slots, i + 2));
    assert RunBefore(slots, addr0, i + 1) == 0;
  }

  lemma PlanGiven(slots: seq<Slot>, before: seq<nat>, after: seq<nat>, all: seq<Range>, done: seq<Range>, s: State,
                  r: Range)
    requires s.bar < |slots| == |before| && slots[s.bar].Memory? && OnPlan(slots, before, all, done, s)
    requires r == Given(slots, s).bars[s.bar] && (slots[s.bar].wide ==> r.base < TOP)
    requires after == before[s.bar := Kept(slots[s.bar], r.base)]
    ensures OnPlan(slots, after, all, done + [r], Given(slots, s))
  {
    hide Kept, Up, Pow2;
    TableSnoc(done, r);
    hide Table;
    var s' := Given(slots, s);
    assert Plan(slots, s.bar, s.mem, s.pref) == [r] + Plan(slots, s'.bar, s'.mem, s'.pref);
    hide Plan;
    assert all == (done + [r]) + Plan(slots, s'.bar, s'.mem, s'.pref);
  }

  lemma SoundGiven(slots: seq<Slot>, addr0: seq<nat>, before: seq<nat>, after: seq<nat>, all: seq<Range>,
                   done: seq<Range>, s: State, r: Range)
    requires WellFormed(slots) && Sound(slots, addr0, before, all, done, s) && s.bar < 6 && slots[s.bar].Memory?
    requires r == Given(slots, s).bars[s.bar] && (slots[s.bar].wide ==> r.base < TOP)
    requires after == before[s.bar := Kept(slots[s.bar], r.base)]
    ensures Sound(slots, addr0, after, all, done + [r], Given(slots, s))
  {
    hide OnTrack, OnPlan, Kept, Up, Pow2;
    TrackGiven(slots, addr0, s);
    PlanGiven(slots, before, after, all, done, s, r);
  }

  lemma SoundPast(slots: seq<Slot>, addr0: seq<nat>, before: seq<nat>, after: seq<nat>, all: seq<Range>,
                  done: seq<Range>, s: State)
    requires WellFormed(slots) && Sound(slots, addr0, before, all, done, s) && s.bar < 6 && after == before
    requires !slots[s.bar].Memory? && !Skips(slots, before, s.bar)
    ensures Sound(slots, addr0, after, all, done, s.(bar := s.bar + 1))
  {
    hide Kept, Up, Pow2, Table;
    assert SlotOk(slots, s.bar) && (s.bar + 1 < 6 ==> SlotOk(slots, s.bar + 1));
    assert RunBefore(slots, addr0, s.bar + 1) == 0;
  }

  lemma SoundSkip(slots: seq<Slot>, addr0: seq<nat>, addr: seq<nat>, all: seq<Range>, done: seq<Range>, s: State)
    requires WellFormed(slots) && Sound(slots, addr0, addr, all, done, s) && s.bar < 6 && Skips(slots, addr, s.bar)
    ensures if s.bar + 1 < 6 && slots[s.bar + 1].Memory? then Lost(slots, addr0, addr, s.(bar := s.bar + 2), s.bar + 1)
            else Sound(slots, addr0, addr, all, done, s.(bar := s.bar + 2))
  {
    hide Kept, Up, Pow2, Programmed, Room;
    var i := s.bar;
    assert SlotOk(slots, i) && (i + 1 < 6 ==> SlotOk(slots, i + 1)) && (i + 2 < 6 ==> SlotOk(slots, i + 2));
    hide WellFormed, SlotOk;
    assert RunBefore(slots, addr0, i + 1) == 1 + RunBefore(slots, addr0, i);
    KeysOf(done, i + 1);
    hide Table;
    if i + 1 < 6 && slots[i + 1].Memory? {
    } else {
      assert Plan(slots, i, s.mem, s.pref) == Plan(slots, i + 1, s.mem, s.pref) == Plan(slots, i + 2, s.mem, s.pref);
    }
  }

  lemma {:induction false} KeysOf(done: seq<Range>, k: nat)
    requires forall j :: 0 <= j < |done| ==> done[j].bar < k
    ensures forall i :: i in Table(done) ==> i < k
    decreases |done|
  {
    if done != [] {
      KeysOf(done[..|done| - 1], k);
    }
  }

  /** What the walk makes of the register it stands on while nothing is lost. */
  lemma RegisterRead(slots: seq<Slot>, addr: seq<nat>, i: nat)
    requires WellFormed(slots) && AddressesOk(slots, addr) && i < 6 && slots[i] != High
    ensures var cfg := ReadOf(slots, addr, i);
            (cfg % 2 == 0 <==> !slots[i].Io?) && (cfg / 4 % 2 == 1 <==> Wide(slots[i]) || Skips(slots, addr, i)) &&
            (slots[i].Memory? ==> (cfg / 8 % 2 == 1 <==> slots[i].pref))
    ensures Wide(slots[i]) ==> i < 5
  {
    hide LowKept, HighKept, Flags;
    assert SlotOk(slots, i);
    match slots[i]
    case Memory(k, pref, wide) =>
      FlagsRead(slots, addr, i);
    case Io(k) =>
      assert Holdable(slots[i], addr[i]);
      IoMultiple(k, addr[i]);
    case _ =>
  }

  lemma IoMultiple(k: nat, a: nat)
    requires 2 <= k <= 31 && a == LowKept(k, a)
    ensures (a + 1) % 2 == 1 && (a + 1) / 4 == a / 4
  {
    PowSplit(2, k - 2);
    Powers();
    hide Pow2;
    FourTimes(a, Pow2(k), Pow2(k - 2));
  }

  lemma FourTimes(a: nat, u: nat, p: nat)
    requires u == 4 * p && p > 0 && a == a / u * u
    ensures (a + 1) % 2 == 1 && (a + 1) / 4 == a / 4
  {
    var c := p * (a / u);
    assert a == 4 * c;
    RemainderIs(a, 4, c, 0);
    RemainderIs(a + 1, 4, c, 1);
    RemainderIs(a + 1, 2, 2 * c, 1);
  }

  /** Room is lacking for the plan as soon as it is lacking for its next range. */
  lemma NoRoomFor(slots: seq<Slot>, all: seq<Range>, done: seq<Range>, s: State)
    requires all == done + Plan(slots, s.bar, s.mem, s.pref) && s.bar < |slots| && Wide(slots[s.bar])
    requires (if slots[s.bar].pref then s.pref else s.mem) >= TOP
    ensures !Room(slots, all)
  {
    assert all[|done|] == Plan(slots, s.bar, s.mem, s.pref)[0];
  }

  lemma LostOn(slots: seq<Slot>, addr0: seq<nat>, before: seq<nat>, after: seq<nat>, s: State, s': State, k: nat)
    requires WellFormed(slots) && Lost(slots, addr0, before, s, k) && s.bar < 6 && |after| == 6 && s'.bar >= s.bar
    requires forall j :: 0 <= j < 6 && Before(slots, s.bar, j) ==> after[j] == before[j]
    requires forall j :: j in s'.bars ==> j in s.bars || j == s.bar
    ensures Lost(slots, addr0, after, s', k)
  {
    assert LostAt(slots, addr0, k) && SlotOk(slots, k) && SlotOk(slots, s.bar);
    hide RunBefore;
  }

  // ---- the walk ----------------------------------------------------------------------

  /** Sizes one bar and, if it is implemented, gives it the base of its pool. */
  method Assign(c: Config, bar: nat, is64: bool, base: nat) returns (size: nat, ok: bool)
    requires c.Valid() && bar < 6
    modifies c
    ensures c.Valid() && |c.addr| == 6
    ensures forall j :: 0 <= j < 6 && Before(c.slots, bar, j) ==> c.addr[j] == old(c.addr[j])
    ensures !ok ==> is64 && base >= TOP
    ensures Taken(c.slots, bar, is64) ==> forall j :: 0 <= j < 6 && j != bar ==> c.addr[j] == old(c.addr[j])
    ensures Taken(c.slots, bar, is64) ==>
              size == SizeOf(c.slots[bar]) && (ok <==> size == 0 || !is64 || base < TOP) &&
              (ok ==> c.addr ==
                      if c.slots[bar].Memory? then old(c.addr)[bar := Kept(c.slots[bar], base)] else old(c.addr))
  {
    hide Kept;
    ok := true;
    size := Probe(c, bar, is64);
    if size != 0 {
      ok := Program(c, bar, is64, base);
    }
  }

  /** What a round does to a register met while nothing is lost. */
  predicate Stepped(slots: seq<Slot>, before: seq<nat>, after: seq<nat>, s: State, s': State, ok: bool)
    requires s.bar < |slots| == |before|
  {
    if slots[s.bar].Memory? then
      var base := if slots[s.bar].pref then s.pref else s.mem;
      (ok <==> !slots[s.bar].wide || base < TOP) && |after| == |slots| &&
      (forall j :: 0 <= j < |slots| && j != s.bar ==> after[j] == before[j]) &&
      (ok ==> s' == Given(slots, s) && after == before[s.bar := Kept(slots[s.bar], base)])
    else
      ok && after == before && s' == s.(bar := s.bar + if Skips(slots, before, s.bar) then 2 else 1)
  }

  /** The walk stopped at a bar its plan has no room for, before it lost any. */
  predicate Stopped(slots: seq<Slot>, addr0: seq<nat>, addr: seq<nat>, all: seq<Range>) {
    !Room(slots, all) && |addr| == |addr0| == |slots| &&
    forall k :: 0 <= k < |slots| && LostAt(slots, addr0, k) ==> addr[k] == addr0[k]
  }

  lemma StopsHere(slots: seq<Slot>, addr0: seq<nat>, before: seq<nat>, after: seq<nat>, all: seq<Range>,
                  done: seq<Range>, s: State)
    requires Sound(slots, addr0, before, all, done, s) && s.bar < |slots| == |after| && Wide(slots[s.bar])
    requires (if slots[s.bar].pref then s.pref else s.mem) >= TOP
    requires forall j :: 0 <= j < |slots| && j != s.bar ==> after[j] == before[j]
    ensures Stopped(slots, addr0, after, all)
  {
    NoRoomFor(slots, all, done, s);
    hide Room, Plan, RunBefore, Table;
  }

  lemma Advance(slots: seq<Slot>, addr0: seq<nat>, before: seq<nat>, after: seq<nat>, all: seq<Range>,
                done: seq<Range>, s: State, s': State, ok: bool, lost: Option<nat>)
    returns (done': seq<Range>, lost': Option<nat>)
    requires WellFormed(slots) && Walked(slots, addr0, before, all, done, s, lost)
    requires s.bar < 6 == |before| == |after| && s.bar < s'.bar
    requires forall j :: 0 <= j < 6 && Before(slots, s.bar, j) ==> after[j] == before[j]
    requires forall j :: j in s'.bars ==> j in s.bars || j == s.bar
    requires lost.None? ==> Stepped(slots, before, after, s, s', ok)
    ensures ok ==> Walked(slots, addr0, after, all, done', s', lost')
    ensures !ok ==> if lost.Some? then Lost(slots, addr0, after, s, lost.value) else Stopped(slots, addr0, after, all)
  {
    hide Plan, Pow2, Up, Kept, Table, Room, Lost, Stopped, OnPlan, OnTrack, SlotOk;
    done', lost' := done, lost;
    if lost.Some? {
      LostOn(slots, addr0, before, after, s, s', lost.value);
      LostOn(slots, addr0, before, after, s, s, lost.value);
    } else if slots[s.bar].Memory? {
      if ok {
        var r := s'.bars[s.bar];
        SoundGiven(slots, addr0, before, after, all, done, s, r);
        done' := done + [r];
      } else {
        StopsHere(slots, addr0, before, after, all, done, s);
      }
    } else if Skips(slots, before, s.bar) {
      SoundSkip(slots, addr0, after, all, done, s);
      if s.bar + 1 < 6 && slots[s.bar + 1].Memory? {
        lost' := Some(s.bar + 1);
      }
    } else {
      SoundPast(slots, addr0, before, after, all, done, s);
    }
  }

  lemma SoundStart(slots: seq<Slot>, addr0: seq<nat>, addr: seq<nat>, all: seq<Range>, done: seq<Range>, s: State)
    requires Sound(slots, addr0, addr, all, done, s) && s.bar < |slots|
    ensures slots[s.bar] != High
  {
  }

  /** One round of the walk. */
  method Round(c: Config, s: State, ghost addr0: seq<nat>, ghost all: seq<Range>, ghost done: seq<Range>,
               ghost lost: Option<nat>)
    returns (ok: bool, s': State, ghost done': seq<Range>, ghost lost': Option<nat>)
    requires c.Valid() && s.bar < 6 && Walked(c.slots, addr0, c.addr, all, done, s, lost)
    modifies c
    ensures c.Valid() && s.bar < s'.bar <= 7
    ensures ok ==> Walked(c.slots, addr0, c.addr, all, done', s', lost')
    ensures !ok ==>
              if lost.Some? then Lost(c.slots, addr0, c.addr, s, lost.value) else Stopped(c.slots, addr0, c.addr, all)
  {
    assert |c.slots| == |c.addr| == 6;
    hide Plan, Pow2, Up, Kept, Holdable, Flags, Table, Room, ReadOf, SlotOk, Lost, Sound, Stopped, WellFormed,
         AddressesOk;
    ok, s' := true, s;
    ghost var before := c.addr;
    var cfg := c.ReadBar(s.bar);
    var isMem, isPref, is64 := cfg % 2 == 0, cfg / 8 % 2 == 1, cfg / 4 % 2 == 1;
    if lost.None? {
      SoundStart(c.slots, addr0, c.addr, all, done, s);
      RegisterRead(c.slots, c.addr, s.bar);
      PowPositive(c.slots[s.bar]);
    }
    if isMem {
      var base, size := if isPref then s.pref else s.mem, 0;
      size, ok := Assign(c, s.bar, is64, base);
      if ok && size != 0 {
        var next := Up(base + size);
        s' := State(s.bar, if isPref then s.mem else next, if isPref then next else s.pref,
                    s.bars[s.bar := Range(s.bar, base, size, isPref)]);
      }
    }
    s' := s'.(bar := s.bar + if is64 then 2 else 1);
    done', lost' := Advance(c.slots, addr0, before, c.addr, all, done, s, s', ok, lost);
  }

  lemma PowPositive(s: Slot)
    ensures s.Memory? ==> SizeOf(s) > 0
  {
  }

  // ---- the whole setup -----------------------------------------------------------------

  datatype Setup = NoRoom | NoBar0 | Bars(table: map<nat, Range>)

  function Planned(slots: seq<Slot>): seq<Range> {
    Plan(slots, 0, MEM_BASE, PREF_BASE)
  }

  /** What the setup returns when it passes over no memory bar. */
  function Outcome(slots: seq<Slot>): Setup {
    if !Room(slots, Planned(slots)) then NoRoom
    else if 0 in Table(Planned(slots)) then Bars(Table(Planned(slots)))
    else NoBar0
  }

  /** Every memory bar is in the table exactly when none is passed over; then the
      table is the plan and the plan is what the hardware got. Otherwise the
      first bar lost is, unless it is wide, left as it was. */
  predicate SetUp(slots: seq<Slot>, before: seq<nat>, after: seq<nat>, r: Setup) {
    (r.Bars? ==> (AllRecorded(slots, r.table) <==> Lossless(slots, before))) &&
    (Lossless(slots, before) ==>
      r == Outcome(slots) && (r != NoRoom ==> Programmed(slots, after, Planned(slots)))) &&
    forall k :: 0 <= k < |slots| == |after| == |before| && FirstLost(slots, before, k) ==>
      (!slots[k].wide ==> after[k] == before[k]) && (r.Bars? ==> k !in r.table)
  }

  lemma WalkStarts(slots: seq<Slot>, addr: seq<nat>)
    requires WellFormed(slots) && |addr| == 6
    ensures Walked(slots, addr, addr, Planned(slots), [], State(0, MEM_BASE, PREF_BASE, map[]), None)
  {
    hide Plan;
    assert SlotOk(slots, 0);
  }

  lemma LostEnds(slots: seq<Slot>, addr0: seq<nat>, addr: seq<nat>, s: State, k: nat, r: Setup)
    requires Lost(slots, addr0, addr, s, k) && (r.Bars? ==> r.table == s.bars)
    ensures SetUp(slots, addr0, addr, r)
  {
    assert LostAt(slots, addr0, k) && slots[k].Memory?;
    hide LostAt, Outcome, Programmed, Planned;
  }

  lemma WalkEnds(slots: seq<Slot>, addr0: seq<nat>, addr: seq<nat>, done: seq<Range>, s: State, lost: Option<nat>)
    requires |slots| == 6 && s.bar >= 6 && Walked(slots, addr0, addr, Planned(slots), done, s, lost)
    ensures SetUp(slots, addr0, addr, if 0 in s.bars then Bars(s.bars) else NoBar0)
  {
    var r := if 0 in s.bars then Bars(s.bars) else NoBar0;
    hide Planned, LostAt, Table, RunBefore, Room, Programmed;
    if lost.Some? {
      LostEnds(slots, addr0, addr, s, lost.value, r);
    } else {
      PlanEnds(slots, s.bar, s.mem, s.pref);
      assert done == Planned(slots);
    }
  }

  lemma PlanEnds(slots: seq<Slot>, i: nat, mem: nat, pref: nat)
    requires i >= |slots|
    ensures Plan(slots, i, mem, pref) == []
  {
  }

  lemma StopEnds(slots: seq<Slot>, addr0: seq<nat>, addr: seq<nat>)
    requires Stopped(slots, addr0, addr, Planned(slots))
    ensures SetUp(slots, addr0, addr, NoRoom)
  {
  }

  /** Walks the registers, sizes each memory bar and gives it the next addresses of
      its pool. */
  method SetupBars(c: Config) returns (r: Setup)
    requires c.Valid()
    modifies c
    ensures c.Valid() && SetUp(c.slots, old(c.addr), c.addr, r)
  {
    assert |c.slots| == |c.addr| == 6;
    hide WellFormed, AddressesOk, Walked, Plan, SetUp, Lost, Stopped;
    ghost var addr0, all, done, lost := c.addr, Planned(c.slots), [], None;
    var s, ok := State(0, MEM_BASE, PREF_BASE, map[]), true;
    WalkStarts(c.slots, addr0);
    while s.bar < 6
      invariant s.bar <= 7 && c.Valid() && Walked(c.slots, addr0, c.addr, all, done, s, lost)
      decreases 6 - s.bar
    {
      ghost var s0, lost0 := s, lost;
      ok, s, done, lost := Round(c, s, addr0, all, done, lost);
      if !ok {
        if lost0.Some? {
          LostEnds(c.slots, addr0, c.addr, s0, lost0.value, NoRoom);
        } else {
          StopEnds(c.slots, addr0, c.addr);
        }
        return NoRoom;
      }
    }
    WalkEnds(c.slots, addr0, c.addr, done, s, lost);
    return if 0 in s.bars then Bars(s.bars) else NoBar0;
  }

  lemma HoldsZero(s: Slot)
    requires Held(s)
    ensures Holdable(s, 0)
  {
    hide Pow2;
    if s.k <= 32 {
      DownIs(0, Pow2(s.k), 0, 0);
    } else {
      DownIs(0, Pow2(s.k - 32), 0, 0);
    }
  }

  lemma HoldsFour()
    ensures Holdable(Io(2), 4)
  {
    assert Pow2(2) == 4;
  }

  /** A 4-byte I/O bar at address 4, 0x5 to the walk, hides the memory bar behind
      it: the table comes back without its entry and its register as it was. */
  lemma IoBarHidesNext(k: nat, n: nat, after: seq<nat>, r: Setup)
    requires 4 <= k <= 31 && 4 <= n <= 31
    ensures WellFormed([Memory(k, false, false), Io(2), Memory(n, false, false), Absent, Absent, Absent])
    ensures AddressesOk([Memory(k, false, false), Io(2), Memory(n, false, false), Absent, Absent, Absent],
                        [0, 4, 0, 0, 0, 0])
    ensures SetUp([Memory(k, false, false), Io(2), Memory(n, false, false), Absent, Absent, Absent],
                  [0, 4, 0, 0, 0, 0], after, r) && |after| == 6 ==>
            after[2] == 0 && (r.Bars? ==> 2 !in r.table)
  {
    hide Holdable, Outcome, Programmed;
    HoldsZero(Memory(k, false, false));
    HoldsZero(Memory(n, false, false));
    HoldsFour();
    var slots, addr := [Memory(k, false, false), Io(2), Memory(n, false, false), Absent, Absent, Absent],
                       [0, 4, 0, 0, 0, 0];
    assert RunBefore(slots, addr, 1) == 0 && Skips(slots, addr, 1);
    assert FirstLost(slots, addr, 2);
  }

  /** Two such bars in a row hide only each other. */
  lemma IoBarHidesIoBar(k: nat, n: nat)
    requires 4 <= k <= 31 && 4 <= n <= 31
    ensures Lossless([Memory(k, false, false), Io(2), Io(2), Memory(n, false, false), Absent, Absent],
                     [0, 4, 4, 0, 0, 0])
  {
    var slots, addr := [Memory(k, false, false), Io(2), Io(2), Memory(n, false, false), Absent, Absent],
                       [0, 4, 4, 0, 0, 0];
    assert RunBefore(slots, addr, 1) == 0 && RunBefore(slots, addr, 2) == 1 && RunBefore(slots, addr, 3) == 2;
  }
}
