/** The session table in place: slots are updated field by field and digest contexts are freed. */
module SessionContexts {
  import opened Transcript
  import opened Digests
  import opened SessionTable

  /** The digest contexts a slot holds. */
  function HandlesOf(s: Slot): (r: set<Handle>)
  {
    Held(s.transcript.th) + Held(s.transcript.thBackup) + Held(s.transcript.l1l2)
    + Held(s.transcript.il1il2) + Held(s.transcript.encapIl1il2)
  }

  /** No two of them are the same context. */
  predicate DistinctHandles(s: Slot)
  {
    && Held(s.transcript.th) !! Held(s.transcript.thBackup) !! Held(s.transcript.l1l2)
       !! Held(s.transcript.il1il2) !! Held(s.transcript.encapIl1il2)
  }

  /** Zeroes everything declared before the secured message context pointer. */
  function ZeroedPrefix(s: Slot): (r: Slot)
  {
    s.(sessionId := 0, usePsk := false, mutAuthRequested := 0, endSessionAttributes := 0,
       sessionPolicy := 0, heartbeatPeriod := 0, transcript := ZeroTranscript, lastKeyUpdate := 0)
  }

  /** An all-zero slot that refers to its own secured message context. */
  function BlankSlot(securedRef: nat): (r: Slot)
  {
    Slot(0, false, 0, 0, 0, 0, ZeroTranscript, 0, securedRef, ZeroSecured, 0, 0, ZeroEncap)
  }

  class SessionContext {
    const cfg: Config
    const slots: array<Slot>
    var psk: nat
    var dhe: nat
    var latest: nat
    var live: set<Handle>

    ghost function View(): (t: Table)
      reads this, slots
    {
      Table(slots[..], psk, dhe, latest)
    }

    /** Every context a slot refers to is live and belongs to that slot alone. */
    ghost predicate Valid()
      reads this, slots
    {
      && (forall i :: 0 <= i < slots.Length ==> DistinctHandles(slots[i]) && HandlesOf(slots[i]) <= live)
      && (forall i, j :: 0 <= i < j < slots.Length ==> HandlesOf(slots[i]) !! HandlesOf(slots[j]))
      && (cfg.recorded ==> forall i :: 0 <= i < slots.Length ==> HandlesOf(slots[i]) == {})
    }

    constructor (cfg: Config, count: nat)
      requires count < 0x1_0000_0000
      ensures Valid() && Empty(View()) && slots.Length == count && live == {}
      ensures forall i :: 0 <= i < count ==> slots[i].securedRef == i
    {
      this.cfg := cfg;
      slots := new Slot[count](i requires 0 <= i => BlankSlot(i));
      psk, dhe, latest, live := 0, 0, INVALID_SESSION_ID, {};
    }

    /** A context is freed once: it must be live, and then it is not. */
    method FreeContext(h: Option<Handle>)
      requires Held(h) <= live
      modifies this`live
      ensures live == old(live) - Held(h)
    {
      if h.Some? {
        live := live - {h.value};
      }
    }

    method FreeContexts(s: Slot)
      requires DistinctHandles(s) && HandlesOf(s) <= live
      modifies this`live
      ensures live == old(live) - HandlesOf(s)
    {
      var t := s.transcript;
      FreeContext(t.th);
      FreeContext(t.thBackup);
      FreeContext(t.l1l2);
      FreeContext(t.il1il2);
      FreeContext(t.encapIl1il2);
    }

    method AdjustCounter(id: nat, usePsk: bool)
      modifies this`psk, this`dhe
      ensures psk == if !usePsk then old(psk)
                     else if id != INVALID_SESSION_ID then Incremented(old(psk)) else Decremented(old(psk))
      ensures dhe == if usePsk then old(dhe)
                     else if id != INVALID_SESSION_ID then Incremented(old(dhe)) else Decremented(old(dhe))
    {
      if id != INVALID_SESSION_ID {
        if usePsk {
          psk := (psk + 1) % 0x1_0000_0000;
        } else {
          dhe := (dhe + 1) % 0x1_0000_0000;
        }
      } else if usePsk {
        if psk > 0 {
          psk := psk - 1;
        }
      } else if dhe > 0 {
        dhe := dhe - 1;
      }
    }

    /**
     Initialises a slot for a new owner, or blanks it.  The new state is a function of the context
     and the arguments, and exactly the contexts the slot held are freed.
     */
    method InitSlot(i: nat, id: nat, securedVersion: nat, usePsk: bool)
      requires Valid() && i < slots.Length
      modifies this`psk, this`dhe, this`live, slots
      ensures Valid() && live == old(live) - HandlesOf(old(slots[i]))
      ensures slots[..] == old(slots[..])[i := FreshSlot(cfg, old(slots[i]).securedRef, id, securedVersion, usePsk)]
      ensures psk == if !usePsk then old(psk)
                     else if id != INVALID_SESSION_ID then Incremented(old(psk)) else Decremented(old(psk))
      ensures dhe == if usePsk then old(dhe)
                     else if id != INVALID_SESSION_ID then Incremented(old(dhe)) else Decremented(old(dhe))
    {
      AdjustCounter(id, usePsk);
      var sessionType := TypeOf(cfg);
      if !cfg.recorded {
        FreeContexts(slots[i]);
      }
      var s := slots[i].(lastKeyUpdate := 0);
      s := ZeroedPrefix(s);
      s := s.(localSlot := 0, peerSlot := 0);
      s := s.(encap := ZeroEncap);
      s := s.(secured := ZeroSecured);
      s := s.(sessionId := id, usePsk := usePsk);
      s := s.(secured := s.secured.(usePsk := usePsk, sessionType := sessionType));
      var endian := if securedVersion / 256 >= SECURED_VERSION_12 then LITTLE_ENDIAN else cfg.sequenceEndian;
      s := s.(secured := s.secured.(sequenceEndian := endian, maxSequence := cfg.maxSequence));
      s := s.(secured := s.secured.(version := cfg.version, securedVersion := securedVersion,
                                    algorithms := cfg.algorithms));
      s := s.(transcript := s.transcript.(encapD := s.transcript.encapD.(max := DigestsSize(cfg.lim))));
      if cfg.recorded {
        s := s.(transcript := s.transcript.(
                  k := s.transcript.k.(max := Capacity(cfg.lim, K)),
                  f := s.transcript.f.(max := Capacity(cfg.lim, F)),
                  m := s.transcript.m.(max := Capacity(cfg.lim, SessM)),
                  e := s.transcript.e.(max := Capacity(cfg.lim, SessE)),
                  encapE := s.transcript.encapE.(max := Capacity(cfg.lim, SessEncapE))));
      }
      assert s == FreshSlot(cfg, slots[i].securedRef, id, securedVersion, usePsk);
      assert HandlesOf(s) == {} && DistinctHandles(s);
      slots[i] := s;
    }

    method FindSession(id: nat) returns (r: Option<nat>)
      ensures r == Lookup(slots[..], id)
    {
      if id == INVALID_SESSION_ID {
        return None;
      }
      r := FindSlot(id);
    }

    method FindSlot(id: nat) returns (r: Option<nat>)
      ensures r == IndexOf(slots[..], id)
    {
      var index := 0;
      while index < slots.Length
        invariant 0 <= index <= slots.Length
        invariant forall j :: 0 <= j < index ==> slots[j].sessionId != id
      {
        if slots[index].sessionId == id {
          return Some(index);
        }
        index := index + 1;
      }
      return None;
    }

    method AssignSession(id: nat, securedVersion: nat, usePsk: bool) returns (r: Option<nat>)
      requires Valid()
      modifies this`psk, this`dhe, this`latest, this`live, slots
      ensures Valid() && (View(), r) == Assign(cfg, old(View()), id, securedVersion, usePsk)
      ensures live == if r.Some? then old(live) - HandlesOf(old(slots[..])[r.value]) else old(live)
    {
      if id == INVALID_SESSION_ID {
        return None;
      }
      var duplicate := FindSlot(id);
      if duplicate.Some? {
        return None;
      }
      r := FindSlot(INVALID_SESSION_ID);
      if r.Some? {
        InitSlot(r.value, id, securedVersion, usePsk);
        latest := id;
      }
    }

    method FreeSession(id: nat)
      requires Valid()
      modifies this`psk, this`dhe, this`latest, this`live, slots
      ensures Valid() && View() == Free(cfg, old(View()), id)
      ensures var i := Lookup(old(slots[..]), id);
              live == if i.Some? then old(live) - HandlesOf(old(slots[..])[i.value]) else old(live)
    {
      if id == INVALID_SESSION_ID {
        return;
      }
      if latest == id {
        latest := INVALID_SESSION_ID;
      }
      var i := FindSlot(id);
      if i.Some? {
        InitSlot(i.value, INVALID_SESSION_ID, 0, slots[i.value].usePsk);
      }
    }

    /** Blanks every slot and frees every context the slots held. */
    method ResetSessions()
      requires Valid()
      modifies this`psk, this`dhe, this`latest, this`live, slots
      ensures Valid() && View() == Clear(cfg, old(View()))
      ensures forall h :: h in live
                <==> h in old(live) && forall i :: 0 <= i < slots.Length ==> h !in HandlesOf(old(slots[i]))
    {
      var index := 0;
      while index < slots.Length
        invariant 0 <= index <= slots.Length && Valid()
        invariant forall i :: 0 <= i < index ==>
                    slots[i] == FreshSlot(cfg, old(slots[i]).securedRef, INVALID_SESSION_ID, 0, false)
        invariant forall i :: index <= i < slots.Length ==> slots[i] == old(slots[i])
        invariant forall h :: h in live
                    <==> h in old(live) && forall i :: 0 <= i < index ==> h !in HandlesOf(old(slots[i]))
      {
        ghost var before := slots[..];
        InitSlot(index, INVALID_SESSION_ID, 0, false);
        assert forall i :: 0 <= i < slots.Length && i != index ==> slots[..][i] == before[i];
        index := index + 1;
      }
      psk, dhe, latest := 0, 0, INVALID_SESSION_ID;
    }

    method EncapViaLastRequest(lastRequest: Option<nat>) returns (r: Option<EncapRef>)
      ensures r == EncapOf(View(), EncapSession(cfg, View(), lastRequest))
    {
      var session := lastRequest;
      if lastRequest.None? && latest != INVALID_SESSION_ID && HandshakeInTheClear(cfg) {
        var i := FindSession(latest);
        if i.Some? && slots[i.value].encap.flow == SessMutAuth {
          session := Some(latest);
        }
      }
      if session.None? {
        return Some(OfConnection);
      }
      var i := FindSession(session.value);
      r := if i.None? then None else Some(OfSession(i.value));
    }
  }
}
