/**
 The slave's table of function handlers: registration and removal in place, and the dispatch
 that stops at the first unused entry.
 */
module ModbusTable {
  import opened Options

  /** An entry: a function code (0: unused) and a handler (none: unused). */
  datatype Slot = Slot(code: nat, handler: Option<nat>) {
    predicate Used() {
      code != 0
    }

    predicate Valid() {
      code != 0 <==> handler.Some?
    }
  }

  const UNUSED := Slot(0, None)

  datatype Status = NoError | NoResources | Invalid

  ghost predicate ValidTable(t: seq<Slot>) {
    forall k :: 0 <= k < |t| ==> t[k].Valid()
  }

  // ----- Registration -----

  /** Where a handler is put: the first entry that is free or already holds it. */
  function Place(t: seq<Slot>, handler: nat): (k: nat)
    ensures k <= |t|
    ensures k < |t| ==> t[k].handler == None || t[k].handler == Some(handler)
    ensures forall j :: 0 <= j < k ==> t[j].handler != None && t[j].handler != Some(handler)
  {
    if t == [] || t[0].handler == None || t[0].handler == Some(handler) then 0
    else
      assert forall j :: 0 < j < |t| ==> t[j] == t[1..][j - 1];
      1 + Place(t[1..], handler)
  }

  /** The first entry with a function code. */
  function Find(t: seq<Slot>, code: nat): (k: nat)
    ensures k <= |t|
    ensures k < |t| ==> t[k].code == code
    ensures forall j :: 0 <= j < k ==> t[j].code != code
  {
    if t == [] || t[0].code == code then 0
    else
      assert forall j :: 0 < j < |t| ==> t[j] == t[1..][j - 1];
      1 + Find(t[1..], code)
  }

  datatype Registered = Registered(table: seq<Slot>, status: Status)

  /** Registers a handler for a code, or removes the code when no handler is given. */
  function Register(t: seq<Slot>, code: nat, handler: Option<nat>): (r: Registered)
    requires ValidTable(t)
    ensures ValidTable(r.table) && |r.table| == |t|
  {
    if !(0 < code <= 127) then Registered(t, Invalid)
    else if handler.Some? then
      var k := Place(t, handler.value);
      if k == |t| then Registered(t, NoResources)
      else Registered(t[k := Slot(code, handler)], NoError)
    else
      var k := Find(t, code);
      if k == |t| then Registered(t, NoError) else Registered(t[k := UNUSED], NoError)
  }

  /** What a registration that works does to the table: one entry, and no other. */
  predicate Puts(t: seq<Slot>, r: seq<Slot>, k: nat, code: nat, handler: nat) {
    && k < |t| && r == t[k := Slot(code, Some(handler))]
    && (t[k].handler == None || t[k].handler == Some(handler))
    && forall j :: 0 <= j < k ==> t[j].handler != None && t[j].handler != Some(handler)
  }

  /**
   A handler is refused exactly when the code is out of range, or the table has neither room for it
   nor the handler itself. Otherwise the first entry that is free or holds it has this code and
   this handler, whatever code it had before.
   */
  lemma RegisterExactly(t: seq<Slot>, code: nat, handler: nat)
    requires ValidTable(t)
    ensures var r := Register(t, code, Some(handler));
            && (r.status == Invalid <==> code == 0 || code >= 128)
            && (r.status == NoResources <==>
                  0 < code < 128 && forall k :: 0 <= k < |t| ==> t[k].Used() && t[k].handler != Some(handler))
            && (r.status != NoError ==> r.table == t)
            && (r.status == NoError <==> exists k: nat :: 0 < code < 128 && Puts(t, r.table, k, code, handler))
  {
    var r, k := Register(t, code, Some(handler)), Place(t, handler);
    if 0 < code < 128 && k < |t| {
      assert Puts(t, r.table, k, code, handler);
    }
  }

  /** A removal never fails in range, and makes the first entry with the code unused. */
  lemma RemoveExactly(t: seq<Slot>, code: nat)
    requires ValidTable(t)
    ensures var r := Register(t, code, None);
            && (r.status == if 0 < code < 128 then NoError else Invalid)
            && (r.table == t <==> !(0 < code < 128) || forall k :: 0 <= k < |t| ==> t[k].code != code)
            && forall k :: 0 <= k < |t| ==>
                 r.table[k] == if 0 < code < 128 && t[k].code == code && (forall j :: 0 <= j < k ==> t[j].code != code)
                               then Slot(0, None) else t[k]
  {
    var k := Find(t, code);
    if 0 < code < 128 && k < |t| {
      assert t[k := UNUSED][k] != t[k];
    }
  }

  // ----- Dispatch -----

  /** The handler for a code: the first entry with it, unless an unused entry comes before. */
  function Dispatch(t: seq<Slot>, code: nat): (h: Option<nat>) {
    if t == [] || !t[0].Used() then None
    else if t[0].code == code then t[0].handler
    else Dispatch(t[1..], code)
  }

  /** The number of entries before the first unused one. */
  function Reach(t: seq<Slot>): (n: nat)
    ensures n <= |t| && (n < |t| ==> !t[n].Used())
    ensures forall j :: 0 <= j < n ==> t[j].Used()
  {
    if t == [] || !t[0].Used() then 0
    else
      assert forall j :: 0 < j < |t| ==> t[j] == t[1..][j - 1];
      1 + Reach(t[1..])
  }

  /** Dispatch reaches exactly the codes before the first hole, and takes the first entry of a code. */
  lemma {:induction false} DispatchReach(t: seq<Slot>, code: nat)
    requires ValidTable(t)
    ensures var k := Find(t, code);
            Dispatch(t, code) == if k < Reach(t) then t[k].handler else None
    ensures Dispatch(t, code).Some? <==> exists k :: 0 <= k < Reach(t) && t[k].code == code
  {
    if t != [] && t[0].Used() {
      DispatchReach(t[1..], code);
      if t[0].code != code {
        assert forall j :: 0 < j < |t| ==> t[j] == t[1..][j - 1];
        if Dispatch(t[1..], code).Some? {
          var k :| 0 <= k < Reach(t[1..]) && t[1..][k].code == code;
          assert t[k + 1].code == code;
        }
      }
    }
  }

  /** All used entries come first. */
  ghost predicate Compact(t: seq<Slot>) {
    forall k :: Reach(t) <= k < |t| ==> !t[k].Used()
  }

  /** In a compact table every code that is registered anywhere is dispatched, to its first entry. */
  lemma CompactDispatches(t: seq<Slot>, code: nat)
    requires ValidTable(t) && Compact(t) && code != 0
    ensures var k := Find(t, code);
            Dispatch(t, code) == if k < |t| then t[k].handler else None
  {
    DispatchReach(t, code);
  }

  lemma {:induction false} ReachIs(t: seq<Slot>, n: nat)
    requires n <= |t| && (n < |t| ==> !t[n].Used())
    requires forall j :: 0 <= j < n ==> t[j].Used()
    ensures Reach(t) == n
  {
    if n > 0 {
      assert forall j :: 0 < j < |t| ==> t[j] == t[1..][j - 1];
      ReachIs(t[1..], n - 1);
    }
  }

  /** A registration keeps a compact table compact. */
  lemma RegisterKeepsCompact(t: seq<Slot>, code: nat, handler: nat)
    requires ValidTable(t) && Compact(t)
    ensures Compact(Register(t, code, Some(handler)).table)
  {
    hide Reach, Place;
    var k := Place(t, handler);
    if 0 < code <= 127 && k < |t| {
      var t' := t[k := Slot(code, Some(handler))];
      assert k <= Reach(t);
      if k < Reach(t) {
        ReachIs(t', Reach(t));
      } else {
        ReachIs(t', k + 1);
      }
    }
  }

  datatype Registration = Registration(code: nat, handler: nat)

  function RegisterAll(t: seq<Slot>, regs: seq<Registration>): (r: seq<Slot>)
    requires ValidTable(t)
    ensures ValidTable(r) && |r| == |t|
    decreases |regs|
  {
    if regs == [] then t else
      RegisterAll(Register(t, regs[0].code, Some(regs[0].handler)).table, regs[1..])
  }

  /** Without removals the table stays a compact prefix, so every code in it is dispatched. */
  lemma {:induction false} RegistrationsDispatch(t: seq<Slot>, regs: seq<Registration>, code: nat)
    requires ValidTable(t) && Compact(t) && code != 0
    ensures Compact(RegisterAll(t, regs))
    ensures var r := RegisterAll(t, regs);
            var k := Find(r, code);
            Dispatch(r, code) == if k < |r| then r[k].handler else None
    decreases |regs|
  {
    hide Reach, Place, Register, Dispatch;
    if regs == [] {
      CompactDispatches(t, code);
    } else {
      RegisterKeepsCompact(t, regs[0].code, regs[0].handler);
      RegistrationsDispatch(Register(t, regs[0].code, Some(regs[0].handler)).table, regs[1..], code);
    }
  }

  // ----- After removals -----

  ghost predicate Holds(t: seq<Slot>, handler: nat) {
    exists k :: 0 <= k < |t| && t[k].handler == Some(handler)
  }

  /** A removal cuts dispatch off at the removed entry, and touches nothing else. */
  lemma RemovalCutsOff(t: seq<Slot>, code: nat)
    requires ValidTable(t) && 0 < code <= 127 && Find(t, code) < |t|
    ensures var t' := Register(t, code, None).table;
            var k := Find(t, code);
            && t' == t[k := UNUSED]
            && Reach(t') == if k < Reach(t) then k else Reach(t)
  {
    hide Reach;
    var k := Find(t, code);
    ReachIs(t[k := UNUSED], if k < Reach(t) then k else Reach(t));
  }

  /** A handler that is not in the table goes into the lowest hole, and dispatch then reaches further. */
  lemma FreshFillsHole(t: seq<Slot>, code: nat, handler: nat)
    requires ValidTable(t) && 0 < code <= 127 && !Holds(t, handler) && Reach(t) < |t|
    ensures var r := Register(t, code, Some(handler));
            && r.status == NoError && r.table == t[Reach(t) := Slot(code, Some(handler))]
            && Reach(r.table) > Reach(t)
  {
    hide Reach, Place;
    var k, n := Place(t, handler), Reach(t);
    assert k == n;
    var t' := t[n := Slot(code, Some(handler))];
    assert forall j :: 0 <= j <= n ==> t'[j].Used();
  }

  /** The registered handlers are new: none is in the table when its turn comes. */
  ghost predicate AllFresh(t: seq<Slot>, regs: seq<Registration>)
    requires ValidTable(t)
    decreases |regs|
  {
    regs != [] ==>
      && 0 < regs[0].code <= 127 && !Holds(t, regs[0].handler)
      && AllFresh(Register(t, regs[0].code, Some(regs[0].handler)).table, regs[1..])
  }

  /** New handlers fill one hole after the other: as many as there are entries make the table whole. */
  lemma {:induction false} FreshRestoreCompact(t: seq<Slot>, regs: seq<Registration>)
    requires ValidTable(t) && AllFresh(t, regs)
    ensures Reach(RegisterAll(t, regs)) >= Reach(t) + |regs| || Reach(RegisterAll(t, regs)) == |t|
    ensures |regs| >= |t| - Reach(t) ==> Compact(RegisterAll(t, regs))
    decreases |regs|
  {
    hide Reach, Place, Register, Holds;
    if regs != [] {
      var r := Register(t, regs[0].code, Some(regs[0].handler)).table;
      FreshRestoreCompact(r, regs[1..]);
      if Reach(t) < |t| {
        FreshFillsHole(t, regs[0].code, regs[0].handler);
      } else {
        FullStays(t, regs[0].code, regs[0].handler);
      }
    }
  }

  lemma FullStays(t: seq<Slot>, code: nat, handler: nat)
    requires ValidTable(t) && Reach(t) == |t| && !Holds(t, handler)
    ensures Register(t, code, Some(handler)).table == t
  {
    hide Reach, Place;
  }

  // ----- In place -----

  class Slave {
    const table: array<Slot>

    constructor (slots: seq<Slot>)
      ensures table[..] == slots && fresh(table)
    {
      table := new Slot[|slots|](i requires 0 <= i < |slots| => slots[i]);
    }

    /** eMBRegisterCB. */
    method RegisterHandler(code: nat, handler: Option<nat>) returns (status: Status)
      requires ValidTable(table[..])
      modifies table
      ensures Registered(table[..], status) == Register(old(table[..]), code, handler)
    {
      hide Place, Find;
      if !(0 < code <= 127) {
        return Invalid;
      }
      var i := 0;
      if handler.Some? {
        while i < table.Length && table[i].handler != None && table[i].handler != handler
          invariant 0 <= i <= table.Length
          invariant forall j :: 0 <= j < i ==> table[j].handler != None && table[j].handler != handler
        {
          i := i + 1;
        }
        PlaceIs(table[..], handler.value, i);
        if i < table.Length {
          table[i] := Slot(code, handler);
        }
        status := if i != table.Length then NoError else NoResources;
      } else {
        while i < table.Length && table[i].code != code
          invariant 0 <= i <= table.Length
          invariant forall j :: 0 <= j < i ==> table[j].code != code
        {
          i := i + 1;
        }
        FindIs(table[..], code, i);
        if i < table.Length {
          table[i] := UNUSED;
        }
        status := NoError;
      }
    }

    /** The dispatch loop of eMBPoll. */
    method FindHandler(code: nat) returns (h: Option<nat>)
      ensures h == Dispatch(table[..], code)
    {
      var i := 0;
      assert table[..][0..] == table[..];
      while i < table.Length && table[i].Used() && table[i].code != code
        invariant 0 <= i <= table.Length
        invariant Dispatch(table[..], code) == Dispatch(table[..][i..], code)
      {
        i := i + 1;
      }
      h := if i < table.Length && table[i].Used() then table[i].handler else None;
    }
  }

  lemma PlaceIs(t: seq<Slot>, handler: nat, k: nat)
    requires k <= |t| && (k < |t| ==> t[k].handler == None || t[k].handler == Some(handler))
    requires forall j :: 0 <= j < k ==> t[j].handler != None && t[j].handler != Some(handler)
    ensures Place(t, handler) == k
  {
    hide Place;
  }

  lemma FindIs(t: seq<Slot>, code: nat, k: nat)
    requires k <= |t| && (k < |t| ==> t[k].code == code)
    requires forall j :: 0 <= j < k ==> t[j].code != code
    ensures Find(t, code) == k
  {
    hide Find;
  }
}
