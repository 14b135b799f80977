/**
 * The life of one transport (transport.cpp): two pump threads and the main thread share it through a
 * socket pair, a reference count and the transport list. A run is any interleaving of their steps.
 */
module TransportLife {
  import opened AdbBase

  datatype Packet = Sync(online: nat, token: nat) | Other(name: nat)

  /** Where the main thread stands: transport_registration_func starts the threads before it lists t. */
  datatype MainPc = Unregistered | Starting | Listed | Gone

  /** A pump thread: in its loop, on its way out, or dropping its reference. */
  datatype ThreadPc = NotStarted | First | Posting | Pumping | SayingOffline | Kicking | Dropping | Closing | Removing | Exited

  /** The threads, the reference count and what has become of the transport. */
  datatype Threads = Threads(
    main: MainPc, noPerm: bool, reader: ThreadPc, writer: ThreadPc, ref: nat,
    inList: bool, kicked: bool, closes: nat, removals: nat, frees: nat)

  /**
   * The socket pair and the writer's flag. `posted` is all the reader thread has written for the main
   * thread, `handled` what the main thread has read of it, `seen` what the writer thread has read,
   * `wrote` the places in `seen` of the packets it passed on to the remote.
   */
  datatype Wires = Wires(
    active: bool, token: nat, toMain: seq<Packet>, toWriter: seq<Packet>,
    posted: seq<Packet>, handled: seq<Packet>, seen: seq<Packet>, wrote: seq<nat>)

  datatype Life = Life(th: Threads, w: Wires)

  datatype Thread = Reader | Writer

  datatype Step =
    | Register(noPerm: bool)
    | Publish
    | BumpToken
    | PostOnline(ok: bool)
    | PumpIn(got: Option<Packet>, ok: bool)
    | PostOffline(ok: bool)
    | PumpOut(readOk: bool, writeOk: bool)
    | Leave(who: Thread)
    | Unref(who: Thread)
    | CloseIt(who: Thread)
    | PostRemove(who: Thread)
    | HandlePacket(before: seq<Packet>, after: seq<Packet>)
    | SendPacket(p: Packet)
    | RemoveIt
    | KickFromAnywhere
    | UnregisterUsb

  const START := Life(Threads(Unregistered, false, NotStarted, NotStarted, 0, false, false, 0, 0, 0), Wires(false, 0, [], [], [], [], [], []))

  function Pc(th: Threads, who: Thread): ThreadPc { if who.Reader? then th.reader else th.writer }

  function WithPc(th: Threads, who: Thread, pc: ThreadPc): Threads {
    if who.Reader? then th.(reader := pc) else th.(writer := pc)
  }

  predicate Enabled(s: Life, step: Step) {
    match step
    case Register(_) => s.th.main.Unregistered?
    case Publish => s.th.main.Starting?
    case BumpToken => s.th.reader.First?
    case PostOnline(_) => s.th.reader.Posting?
    case PumpIn(_, _) => s.th.reader.Pumping?
    case PostOffline(_) => s.th.reader.SayingOffline?
    case PumpOut(readOk, _) => s.th.writer.Pumping? && (readOk ==> s.w.toWriter != [])
    case Leave(who) => Pc(s.th, who).Kicking?
    case Unref(who) => Pc(s.th, who).Dropping?
    case CloseIt(who) => Pc(s.th, who).Closing?
    case PostRemove(who) => Pc(s.th, who).Removing?
    case HandlePacket(before, after) => s.th.main.Listed? && s.w.toMain != [] && Plain(before) && Plain(after)
    case SendPacket(p) => s.th.main.Listed? && p.Other?
    case RemoveIt => s.th.main.Listed? && s.th.removals > 0
    case KickFromAnywhere => true
    case UnregisterUsb => s.th.main.Listed? && s.th.noPerm
  }

  /** The main thread sends no SYNC but the ones it echoes. */
  predicate Plain(ps: seq<Packet>) { forall i :: 0 <= i < |ps| ==> ps[i].Other? }

  /** kick_transport: t is looked up in the list before it is touched. */
  function Kick(th: Threads): Threads { if th.inList then th.(kicked := true) else th }

  /** write_transport_thread leaves its loop over this packet. */
  predicate Stops(w: Wires, p: Packet, writeOk: bool) {
    if p.Sync? then p.online == 0 else w.active && !writeOk
  }

  function Registered(th: Threads, noPerm: bool): Threads {
    if noPerm then th.(main := Starting, noPerm := true)
    else th.(main := Starting, ref := 2, reader := First, writer := Pumping)
  }

  /** transport_unref: the last one out closes. */
  function Unreffed(th: Threads, who: Thread): Threads {
    if th.ref == 0 then th
    else WithPc(th, who, if th.ref == 1 then Closing else Exited).(ref := th.ref - 1)
  }

  function Closed(th: Threads, who: Thread): Threads { WithPc(th, who, Removing).(closes := th.closes + 1) }

  function AskedRemoval(th: Threads, who: Thread): Threads { WithPc(th, who, Exited).(removals := th.removals + 1) }

  function Removed(th: Threads): Threads {
    th.(main := Gone, inList := false, removals := if th.removals == 0 then 0 else th.removals - 1, frees := th.frees + 1)
  }

  /** Where the reader thread goes from its loop. */
  function ReaderGoes(pc: ThreadPc, step: Step): ThreadPc {
    match step
    case BumpToken => Posting
    case PostOnline(ok) => if ok then Pumping else Kicking
    case PumpIn(got, ok) => if got == None then SayingOffline else if ok then Pumping else Kicking
    case PostOffline(ok) => Kicking
    case _ => pc
  }

  function NextThreads(th: Threads, step: Step, stops: bool): Threads {
    match step
    case Register(noPerm) => Registered(th, noPerm)
    case Publish => th.(main := Listed, inList := true)
    case PumpOut(_, _) => WithPc(th, Writer, if stops then Kicking else Pumping)
    case Leave(who) => WithPc(Kick(th), who, Dropping)
    case Unref(who) => Unreffed(th, who)
    case CloseIt(who) => Closed(th, who)
    case PostRemove(who) => AskedRemoval(th, who)
    case RemoveIt => Removed(th)
    case KickFromAnywhere => Kick(th)
    case UnregisterUsb => th.(inList := false)
    case _ => WithPc(th, Reader, ReaderGoes(th.reader, step))
  }

  function Post(w: Wires, p: Packet): Wires { w.(toMain := w.toMain + [p], posted := w.posted + [p]) }

  /** The loop body of write_transport_thread on the packet it has read. */
  function TakeOne(w: Wires, writeOk: bool): Wires
    requires w.toWriter != []
  {
    var p := w.toWriter[0];
    w.(toWriter := w.toWriter[1..], seen := w.seen + [p],
       active := w.active || (p.Sync? && p.online != 0 && p.token == w.token),
       wrote := if p.Other? && w.active && writeOk then w.wrote + [|w.seen|] else w.wrote)
  }

  /** The main thread's handle_packet: a SYNC is echoed, with other packets before and after. */
  function Handle(w: Wires, before: seq<Packet>, after: seq<Packet>): Wires
    requires w.toMain != []
  {
    var p := w.toMain[0];
    w.(toMain := w.toMain[1..], handled := w.handled + [p],
       toWriter := w.toWriter + before + (if p.Sync? then [p] else []) + after)
  }

  function NextWires(w: Wires, step: Step): Wires {
    match step
    case BumpToken => w.(token := w.token + 1)
    case PostOnline(ok) => if ok then Post(w, Sync(1, w.token)) else w
    case PumpIn(got, ok) => if got.Some? && ok then Post(w, got.value) else w
    case PostOffline(ok) => if ok then Post(w, Sync(0, 0)) else w
    case PumpOut(readOk, writeOk) => if readOk && w.toWriter != [] then TakeOne(w, writeOk) else w
    case HandlePacket(before, after) => if w.toMain != [] then Handle(w, before, after) else w
    case SendPacket(p) => w.(toWriter := w.toWriter + [p])
    case _ => w
  }

  predicate StopsNow(w: Wires, step: Step) {
    step.PumpOut? && (!step.readOk || (w.toWriter != [] && Stops(w, w.toWriter[0], step.writeOk)))
  }

  function Next(s: Life, step: Step): Life {
    if !Enabled(s, step) then s
    else Life(NextThreads(s.th, step, StopsNow(s.w, step)), NextWires(s.w, step))
  }

  function Run(steps: seq<Step>): Life {
    if steps == [] then START else Next(Run(steps[..|steps| - 1]), steps[|steps| - 1])
  }

  /** The step reads or writes the transport object itself. */
  predicate Touches(s: Life, step: Step) {
    match step
    case KickFromAnywhere => s.th.inList
    case PostRemove(_) => false
    case Register(_) => false
    case _ => true
  }

  // ----- the invariant -----

  /** The thread still owns its reference. */
  predicate Holds(pc: ThreadPc) {
    !pc.NotStarted? && !pc.Closing? && !pc.Removing? && !pc.Exited?
  }

  /** The thread dropped the last reference, and has still to close the transport or ask for its removal. */
  predicate Finishing(pc: ThreadPc) { pc.Closing? || pc.Removing? }

  predicate Running(th: Threads) { !th.main.Unregistered? && !th.noPerm }

  predicate RefsOk(th: Threads) {
    th.ref == if Holds(th.reader) then if Holds(th.writer) then 2 else 1 else if Holds(th.writer) then 1 else 0
  }

  predicate BothOrNone(th: Threads) {
    && (Running(th) <==> !th.reader.NotStarted?) && (Running(th) <==> !th.writer.NotStarted?)
    && (Finishing(th.reader) ==> th.writer.Exited?) && (Finishing(th.writer) ==> th.reader.Exited?)
  }

  /** Nobody holds the transport any more. */
  predicate LetGo(th: Threads) { Running(th) && !Holds(th.reader) && !Holds(th.writer) }

  predicate ClosesOk(th: Threads) {
    th.closes == if LetGo(th) && !th.reader.Closing? && !th.writer.Closing? then 1 else 0
  }

  predicate RemovalsOk(th: Threads) {
    if LetGo(th) && !Finishing(th.reader) && !Finishing(th.writer)
    then (if th.main.Gone? then th.removals == 0 && th.frees == 1 else th.removals == 1 && th.frees == 0)
    else th.removals == 0 && th.frees == 0 && !th.main.Gone?
  }

  predicate ListingOk(th: Threads) {
    && (th.inList ==> th.main.Listed?)
    && (th.main.Unregistered? ==> !th.noPerm)
  }

  predicate CountsOk(th: Threads) {
    RefsOk(th) && BothOrNone(th) && ClosesOk(th) && RemovalsOk(th) && ListingOk(th)
  }

  function Syncs(ps: seq<Packet>): seq<Packet> {
    if ps == [] then [] else (if ps[0].Sync? then [ps[0]] else []) + Syncs(ps[1..])
  }

  predicate Online(seen: seq<Packet>, token: nat) {
    exists j :: 0 <= j < |seen| && seen[j].Sync? && seen[j].online != 0 && seen[j].token == token
  }

  predicate NoOffline(seen: seq<Packet>) {
    forall j :: 0 <= j < |seen| && seen[j].Sync? ==> seen[j].online != 0
  }

  predicate ChannelsOk(w: Wires) {
    && w.posted == w.handled + w.toMain
    && Syncs(w.seen) + Syncs(w.toWriter) == Syncs(w.handled)
    && w.token <= 1 && (w.posted != [] ==> w.posted[0] == Sync(1, 1))
  }

  predicate ReaderOk(pc: ThreadPc, w: Wires) {
    && (pc.NotStarted? || pc.First? <==> w.token == 0)
    && (pc.Pumping? || pc.SayingOffline? ==> w.posted != [])
    && (pc.NotStarted? || pc.First? || pc.Posting? ==> w.posted == [])
  }

  predicate WriterOk(w: Wires) {
    && (w.active ==> Online(w.seen, w.token))
    && forall k :: 0 <= k < |w.wrote| ==>
         && w.wrote[k] < |w.seen| && w.seen[w.wrote[k]].Other?
         && Online(w.seen[..w.wrote[k]], w.token) && NoOffline(w.seen[..w.wrote[k]])
  }

  /** The n-th packet the writer thread read is one to pass on. */
  predicate ToPass(w: Wires, n: nat)
    requires n < |w.seen|
  {
    w.seen[n].Other? && Online(w.seen[..n], w.token)
  }

  /** Of the first `upto` packets just those to be passed on were, each once and in order. */
  ghost predicate PassedOn(w: Wires, upto: int) {
    && (forall j, k :: 0 <= j < k < |w.wrote| ==> w.wrote[j] < w.wrote[k])
    && (forall k :: 0 <= k < |w.wrote| ==> w.wrote[k] < |w.seen|)
    && forall n: nat :: n < upto && n < |w.seen| ==> (n in w.wrote <==> ToPass(w, n))
  }

  /** The same for all of them, with the writer's flag: so it is while the writer is in its loop. */
  ghost predicate Exact(w: Wires) {
    (w.active <==> Online(w.seen, w.token)) && PassedOn(w, |w.seen|)
  }

  /** A writer that has left its loop may have failed to pass on the last. */
  ghost predicate WroteOk(pc: ThreadPc, w: Wires) {
    PassedOn(w, |w.seen| - 1) && (pc.Pumping? || pc.NotStarted? ==> Exact(w))
  }

  lemma {:induction false} OnlineMore(seen: seq<Packet>, p: Packet, token: nat)
    ensures Online(seen + [p], token) <==> Online(seen, token) || (p.Sync? && p.online != 0 && p.token == token)
  {
    var more := seen + [p];
    if Online(seen, token) {
      var j :| 0 <= j < |seen| && seen[j].Sync? && seen[j].online != 0 && seen[j].token == token;
      assert more[j] == seen[j];
    }
    if p.Sync? && p.online != 0 && p.token == token {
      assert more[|seen|] == p;
    }
  }

  lemma {:induction false} TakeExact(w: Wires, writeOk: bool)
    requires Exact(w) && w.toWriter != []
    ensures var t := TakeOne(w, writeOk);
            PassedOn(t, |t.seen| - 1) && (!Stops(w, w.toWriter[0], writeOk) ==> Exact(t))
  {
    var t := TakeOne(w, writeOk);
    var p := w.toWriter[0];
    var last := |w.seen|;
    OnlineMore(w.seen, p, w.token);
    hide Online;
    assert t.seen == w.seen + [p] && t.seen[..last] == w.seen;
    forall n: nat | n < last ensures ToPass(t, n) == ToPass(w, n) && (n in t.wrote <==> n in w.wrote) {
      assert t.seen[..n] == w.seen[..n];
    }
    assert last !in w.wrote;
  }

  lemma WroteKept(s: Life, step: Step)
    requires Inv(s) && Enabled(s, step)
    ensures WroteOk(NextThreads(s.th, step, StopsNow(s.w, step)).writer, NextWires(s.w, step))
  {
    hide CountsOk, ChannelsOk, TakeOne, Stops, WriterOk, Exact;
    assert step.Register? ==> s.th.writer.NotStarted? || s.th.writer.Pumping? by {
      StartedOnce(s.th);
    }
    if step.PumpOut? && step.readOk {
      TakeExact(s.w, step.writeOk);
    } else if step.BumpToken? {
      NothingSeen(s.w);
      NobodyOnline(s.w, NextWires(s.w, step), s.th.writer);
    } else {
      SameExact(s.w, NextWires(s.w, step));
    }
  }

  lemma SameExact(w: Wires, w': Wires)
    requires w'.seen == w.seen && w'.wrote == w.wrote && w'.active == w.active && w'.token == w.token
    ensures forall upto :: PassedOn(w, upto) ==> PassedOn(w', upto)
    ensures Exact(w) ==> Exact(w')
  {
    hide Online;
    forall n: nat | n < |w.seen| ensures ToPass(w, n) == ToPass(w', n) {
    }
  }

  /** Before any SYNC has come the token makes no difference. */
  lemma {:induction false} NobodyOnline(w: Wires, w': Wires, pc: ThreadPc)
    requires ChannelsOk(w) && w.posted == [] && !w.active && w.wrote == []
    requires w' == w.(token := w'.token)
    ensures WroteOk(pc, w')
  {
    assert Syncs(w.seen) == [];
    NoSyncs(w.seen);
    forall n: nat | n <= |w.seen| ensures !Online(w.seen[..n], w'.token) {
      assert forall j :: 0 <= j < n ==> w.seen[..n][j] == w.seen[j];
    }
    assert w.seen[..|w.seen|] == w.seen;
  }

  ghost predicate Inv(s: Life) {
    && CountsOk(s.th) && ChannelsOk(s.w) && ReaderOk(s.th.reader, s.w) && WriterOk(s.w)
    && (s.th.writer.Pumping? || s.th.writer.NotStarted? ==> NoOffline(s.w.seen)) && WroteOk(s.th.writer, s.w)
  }

  lemma GoesCounts(th: Threads, who: Thread, pc: ThreadPc)
    requires CountsOk(th) && ((Holds(pc) && Holds(Pc(th, who))) || pc == Pc(th, who))
    ensures CountsOk(WithPc(th, who, pc))
  {
  }

  lemma KickCounts(th: Threads)
    requires CountsOk(th)
    ensures CountsOk(Kick(th)) && Kick(th).reader == th.reader && Kick(th).writer == th.writer
  {
  }

  lemma UnrefCounts(th: Threads, who: Thread)
    requires CountsOk(th) && Pc(th, who).Dropping?
    ensures CountsOk(Unreffed(th, who))
  {
  }

  lemma CloseCounts(th: Threads, who: Thread)
    requires CountsOk(th) && Pc(th, who).Closing?
    ensures CountsOk(Closed(th, who))
  {
  }

  lemma RemoveCounts(th: Threads, who: Thread)
    requires CountsOk(th) && Pc(th, who).Removing?
    ensures CountsOk(AskedRemoval(th, who))
  {
  }

  lemma RegisterCounts(th: Threads, noPerm: bool)
    requires CountsOk(th) && th.main.Unregistered?
    ensures CountsOk(Registered(th, noPerm))
  {
  }

  lemma ListCounts(th: Threads)
    requires CountsOk(th)
    ensures th.main.Starting? ==> CountsOk(th.(main := Listed, inList := true))
    ensures th.main.Listed? ==> CountsOk(th.(inList := false))
  {
  }

  lemma FreeCounts(th: Threads)
    requires CountsOk(th) && th.main.Listed? && th.removals > 0
    ensures CountsOk(Removed(th))
  {
  }

  lemma CountsKept(s: Life, step: Step)
    requires CountsOk(s.th) && Enabled(s, step)
    ensures CountsOk(NextThreads(s.th, step, StopsNow(s.w, step)))
  {
    hide CountsOk, WithPc, Kick, Unreffed, Closed, AskedRemoval, Registered, Removed, StopsNow, Plain;
    match step
    case Register(noPerm) => RegisterCounts(s.th, noPerm);
    case Publish => ListCounts(s.th);
    case PumpOut(_, _) => GoesCounts(s.th, Writer, if StopsNow(s.w, step) then Kicking else Pumping);
    case Leave(who) =>
      KickCounts(s.th);
      GoesCounts(Kick(s.th), who, Dropping);
    case Unref(who) => UnrefCounts(s.th, who);
    case CloseIt(who) => CloseCounts(s.th, who);
    case PostRemove(who) => RemoveCounts(s.th, who);
    case RemoveIt => FreeCounts(s.th);
    case KickFromAnywhere => KickCounts(s.th);
    case UnregisterUsb => ListCounts(s.th);
    case _ => GoesCounts(s.th, Reader, ReaderGoes(s.th.reader, step));
  }

  lemma {:induction false} SyncsAppend(a: seq<Packet>, b: seq<Packet>)
    ensures Syncs(a + b) == Syncs(a) + Syncs(b)
  {
    if a == [] {
      assert a + b == b;
    } else {
      var head := if a[0].Sync? then [a[0]] else [];
      assert (a + b)[1..] == a[1..] + b && (a + b)[0] == a[0];
      SyncsAppend(a[1..], b);
      Regroup(head, Syncs(a[1..]), Syncs(b));
    }
  }

  lemma {:induction false} PlainHasNone(ps: seq<Packet>)
    requires Plain(ps)
    ensures Syncs(ps) == []
  {
    if ps != [] {
      PlainHasNone(ps[1..]);
    }
  }

  lemma OneSync(p: Packet)
    ensures Syncs([p]) == if p.Sync? then [p] else []
  {
    assert [p][1..] == [];
  }

  lemma {:induction false} HandleSyncs(ch: seq<Packet>, p: Packet, before: seq<Packet>, after: seq<Packet>)
    requires Plain(before) && Plain(after)
    ensures Syncs(ch + before + (if p.Sync? then [p] else []) + after) == Syncs(ch) + Syncs([p])
  {
    hide Syncs;
    var echo := if p.Sync? then [p] else [];
    OneSync(p);
    PlainHasNone([]);
    SyncsAppend(ch, before);
    SyncsAppend(ch + before, echo);
    SyncsAppend(ch + before + echo, after);
    PlainHasNone(before);
    PlainHasNone(after);
  }

  lemma {:induction false} HandleChannels(w: Wires, before: seq<Packet>, after: seq<Packet>)
    requires ChannelsOk(w) && w.toMain != [] && Plain(before) && Plain(after)
    ensures ChannelsOk(Handle(w, before, after))
  {
    hide Syncs, Plain;
    var p := w.toMain[0];
    HandleSyncs(w.toWriter, p, before, after);
    SyncsAppend(w.handled, [p]);
    assert w.toMain == [p] + w.toMain[1..];
    Regroup(Syncs(w.seen), Syncs(w.toWriter), Syncs([p]));
  }

  lemma {:induction false} Regroup(a: seq<Packet>, b: seq<Packet>, c: seq<Packet>)
    ensures a + (b + c) == a + b + c
  {
  }

  lemma TakeChannels(w: Wires, writeOk: bool)
    requires ChannelsOk(w) && w.toWriter != []
    ensures ChannelsOk(TakeOne(w, writeOk))
  {
    hide Syncs;
    SyncsAppend(w.seen, [w.toWriter[0]]);
    SyncsAppend([w.toWriter[0]], w.toWriter[1..]);
    assert w.toWriter == [w.toWriter[0]] + w.toWriter[1..];
    Regroup(Syncs(w.seen), Syncs([w.toWriter[0]]), Syncs(w.toWriter[1..]));
  }

  lemma ChannelsKept(s: Life, step: Step)
    requires ChannelsOk(s.w) && ReaderOk(s.th.reader, s.w) && Enabled(s, step)
    ensures ChannelsOk(NextWires(s.w, step))
  {
    hide Syncs;
    match step
    case HandlePacket(before, after) => HandleChannels(s.w, before, after);
    case SendPacket(p) =>
      SyncsAppend(s.w.toWriter, [p]);
      PlainHasNone([p]);
    case PumpOut(readOk, writeOk) =>
      if readOk {
        TakeChannels(s.w, writeOk);
      }
    case _ =>
  }

  lemma ReaderKept(s: Life, step: Step)
    requires ReaderOk(s.th.reader, s.w) && Enabled(s, step)
    requires s.th.main.Unregistered? ==> s.th.reader.NotStarted?
    ensures ReaderOk(NextThreads(s.th, step, StopsNow(s.w, step)).reader, NextWires(s.w, step))
  {
  }

  lemma TakeWriter(w: Wires, writeOk: bool)
    requires WriterOk(w) && NoOffline(w.seen) && w.toWriter != []
    ensures WriterOk(TakeOne(w, writeOk))
    ensures !Stops(w, w.toWriter[0], writeOk) ==> NoOffline(TakeOne(w, writeOk).seen)
  {
    var t := TakeOne(w, writeOk);
    var n := |w.seen|;
    assert t.seen[..n] == w.seen && t.seen[n] == w.toWriter[0];
    if w.active {
      var j :| 0 <= j < n && w.seen[j].Sync? && w.seen[j].online != 0 && w.seen[j].token == w.token;
      assert t.seen[j] == w.seen[j];
    }
    forall k | 0 <= k < |t.wrote|
      ensures t.wrote[k] < |t.seen| && t.seen[t.wrote[k]].Other?
      ensures Online(t.seen[..t.wrote[k]], t.token) && NoOffline(t.seen[..t.wrote[k]])
    {
      if k < |w.wrote| {
        assert t.seen[..t.wrote[k]] == w.seen[..w.wrote[k]];
      }
    }
  }

  /** Before the reader thread has posted anything no SYNC is about, and the writer cannot be active. */
  lemma NothingSeen(w: Wires)
    requires ChannelsOk(w) && WriterOk(w) && w.posted == []
    ensures !w.active && w.wrote == [] && NoOffline(w.seen)
  {
    assert Syncs(w.seen) == [];
    NoSyncs(w.seen);
    WroteOnline(w);
  }

  lemma WroteOnline(w: Wires)
    requires WriterOk(w)
    ensures w.wrote != [] ==> exists j :: 0 <= j < |w.seen| && w.seen[j].Sync?
  {
    if w.wrote != [] {
      var n := w.wrote[0];
      assert Online(w.seen[..n], w.token);
      var j :| 0 <= j < n && w.seen[..n][j].Sync?;
      assert w.seen[j].Sync?;
    }
  }

  lemma {:induction false} NoSyncs(ps: seq<Packet>)
    requires Syncs(ps) == []
    ensures forall j :: 0 <= j < |ps| ==> ps[j].Other?
  {
    if ps != [] {
      NoSyncs(ps[1..]);
    }
  }

  lemma WriterKept(s: Life, step: Step)
    requires Inv(s) && Enabled(s, step)
    ensures WriterOk(NextWires(s.w, step))
    ensures var pc := NextThreads(s.th, step, StopsNow(s.w, step)).writer;
            pc.Pumping? || pc.NotStarted? ==> NoOffline(NextWires(s.w, step).seen)
  {
    hide Online, NoOffline, CountsOk, ChannelsOk, TakeOne, Stops, WroteOk;
    assert step.Register? ==> s.th.writer.NotStarted? || s.th.writer.Pumping? by {
      StartedOnce(s.th);
    }
    if step.PumpOut? && step.readOk {
      TakeWriter(s.w, step.writeOk);
    } else if step.BumpToken? {
      NothingSeen(s.w);
    }
  }

  lemma StartedOnce(th: Threads)
    requires CountsOk(th)
    ensures th.main.Unregistered? ==> th.writer.NotStarted?
  {
  }

  lemma NextInv(s: Life, step: Step)
    requires Inv(s) && Enabled(s, step)
    ensures Inv(Next(s, step))
  {
    assert s.th.main.Unregistered? ==> s.th.reader.NotStarted?;
    WriterKept(s, step);
    WroteKept(s, step);
    hide WroteOk, CountsOk, ChannelsOk, WriterOk, ReaderOk, NextThreads, NextWires, NoOffline, Enabled, StopsNow;
    CountsKept(s, step);
    ChannelsKept(s, step);
    ReaderKept(s, step);
  }

  lemma StartCounts()
    ensures CountsOk(START.th)
  {
  }

  lemma StartWires()
    ensures ChannelsOk(START.w) && WriterOk(START.w) && ReaderOk(START.th.reader, START.w) && NoOffline(START.w.seen)
    ensures WroteOk(START.th.writer, START.w)
  {
  }

  lemma StartInv()
    ensures Inv(START)
  {
    hide CountsOk, ChannelsOk, WriterOk, ReaderOk, NoOffline, WroteOk;
    StartCounts();
    StartWires();
  }

  lemma DisabledNext(s: Life, step: Step)
    ensures !Enabled(s, step) ==> Next(s, step) == s
  {
  }

  lemma {:induction false} RunInv(steps: seq<Step>)
    ensures Inv(Run(steps))
  {
    StartInv();
    hide Inv, Next;
    if steps == [] {
    } else {
      var s, step := Run(steps[..|steps| - 1]), steps[|steps| - 1];
      RunInv(steps[..|steps| - 1]);
      DisabledNext(s, step);
      if Enabled(s, step) {
        NextInv(s, step);
      }
    }
  }

  // ----- what follows for every run -----

  /** close and the removal happen at most once, only when both threads have let go, and in that order. */
  lemma {:induction false} ClosedOnce(steps: seq<Step>)
    ensures var s := Run(steps);
            && s.th.closes <= 1 && s.th.frees <= 1 && s.th.removals + s.th.frees <= s.th.closes
            && (s.th.closes == 1 ==> !Holds(s.th.reader) && !Holds(s.th.writer))
            && (s.th.frees == 1 ==> s.th.reader.Exited? && s.th.writer.Exited?)
  {
    hide Run, Next, NextThreads, NextWires;
    RunInv(steps);
  }

  /** Once both threads are out it has been closed, and removed or is about to be. */
  lemma {:induction false} ClosedAtLast(steps: seq<Step>)
    requires var s := Run(steps); s.th.reader.Exited? && s.th.writer.Exited?
    ensures var s := Run(steps);
            && s.th.closes == 1 && s.th.removals + s.th.frees == 1
            && (s.th.main.Listed? ==> s.th.removals == 1 && Enabled(s, RemoveIt))
  {
    hide Run, Next, NextThreads, NextWires;
    RunInv(steps);
  }

  /** No step of any thread touches the transport once it is freed; a kick finds it gone from the list. */
  lemma {:induction false} NoUseAfterFree(steps: seq<Step>, step: Step)
    requires Enabled(Run(steps), step) && Touches(Run(steps), step)
    ensures Run(steps).th.frees == 0
  {
    hide Run, Next, NextThreads, NextWires;
    RunInv(steps);
  }

  /** transport_unref's CHECK holds: a thread that drops a reference has one. */
  lemma {:induction false} UnrefHasReference(steps: seq<Step>, who: Thread)
    requires Enabled(Run(steps), Unref(who))
    ensures Run(steps).th.ref > 0
  {
    hide Run, Next, NextThreads, NextWires;
    RunInv(steps);
  }

  /**
   * Whatever the remote sends, SYNC packets included, a packet reaches the remote only after a SYNC
   * with the reader's token and before any SYNC-offline, and is no SYNC itself.
   */
  lemma {:induction false} WritesBetweenSyncs(steps: seq<Step>, k: nat)
    requires k < |Run(steps).w.wrote|
    ensures var s := Run(steps);
            var n := s.w.wrote[k];
            && n < |s.w.seen| && s.w.seen[n].Other?
            && Online(s.w.seen[..n], s.w.token) && NoOffline(s.w.seen[..n])
  {
    hide Run, Next, NextThreads, NextWires;
    RunInv(steps);
  }

  /**
   * While the writer thread pumps, just those of the packets it has read are on the remote that are no
   * SYNC and come after a SYNC with the reader's token, each once and in order. Once it has left its
   * loop that still holds of all but, perhaps, the last.
   */
  lemma {:induction false} WrittenExactly(steps: seq<Step>, n: nat)
    requires n < |Run(steps).w.seen|
    ensures var s := Run(steps);
            && (s.th.writer.Pumping? || n < |s.w.seen| - 1 ==>
                  (n in s.w.wrote <==> s.w.seen[n].Other? && Online(s.w.seen[..n], s.w.token)))
            && (forall j, k :: 0 <= j < k < |s.w.wrote| ==> s.w.wrote[j] < s.w.wrote[k])
  {
    hide Run, Next, NextThreads, NextWires, Online;
    RunInv(steps);
    assert n < |Run(steps).w.seen| - 1 || Run(steps).th.writer.Pumping? ==>
             (n in Run(steps).w.wrote <==> ToPass(Run(steps).w, n));
  }

  // ----- leaving and kicking -----

  /** What makes write_transport_thread leave its loop: the packet could not be read, is SYNC-offline, or did not get out. */
  predicate EndsWriter(w: Wires, readOk: bool, writeOk: bool)
    requires readOk ==> w.toWriter != []
  {
    || !readOk
    || (w.toWriter[0].Sync? && w.toWriter[0].online == 0)
    || (w.toWriter[0].Other? && Online(w.seen, w.token) && !writeOk)
  }

  /** In any run the writer thread leaves its loop exactly then; a packet it may not pass on yet is no reason. */
  lemma {:induction false} WriterLeavesIff(steps: seq<Step>, readOk: bool, writeOk: bool)
    requires Enabled(Run(steps), PumpOut(readOk, writeOk))
    ensures var s := Run(steps);
            Next(s, PumpOut(readOk, writeOk)).th.writer == (if EndsWriter(s.w, readOk, writeOk) then Kicking else Pumping)
  {
    RunInv(steps);
    hide Run, Online, CountsOk, ChannelsOk, ReaderOk, WriterOk, NoOffline, PassedOn;
  }

  /** The step looks for the transport in the list and finds it. */
  predicate Kicks(s: Life, step: Step) {
    Enabled(s, step) && (step.Leave? || step.KickFromAnywhere?) && s.th.inList
  }

  ghost predicate SomeKick(steps: seq<Step>) {
    exists i :: 0 <= i < |steps| && Kicks(Run(steps[..i]), steps[i])
  }

  lemma {:induction false} SomeKickMore(steps: seq<Step>)
    requires steps != []
    ensures var before, last := steps[..|steps| - 1], steps[|steps| - 1];
            SomeKick(steps) <==> SomeKick(before) || Kicks(Run(before), last)
  {
    hide Run, Kicks;
    var before := steps[..|steps| - 1];
    assert forall i :: 0 <= i < |before| ==> before[..i] == steps[..i] && before[i] == steps[i];
    if SomeKick(before) {
      var i :| 0 <= i < |before| && Kicks(Run(before[..i]), before[i]);
      assert Kicks(Run(steps[..i]), steps[i]);
    }
  }

  lemma KickedNext(s: Life, step: Step)
    ensures Next(s, step).th.kicked <==> s.th.kicked || Kicks(s, step)
  {
    hide NextWires, StopsNow;
  }

  /** The device is disconnected if and only if some kick came while the transport was listed. */
  lemma {:induction false} KickedIff(steps: seq<Step>)
    ensures Run(steps).th.kicked <==> SomeKick(steps)
  {
    hide Next, Kicks;
    if steps != [] {
      KickedIff(steps[..|steps| - 1]);
      SomeKickMore(steps);
      KickedNext(Run(steps[..|steps| - 1]), steps[|steps| - 1]);
    }
  }

  /** A thread kicks on its way out, to no effect if it is gone before the transport is listed. */
  lemma KickLost()
    ensures var s := Run([Register(false), BumpToken, PostOnline(false), Leave(Reader), Publish]);
            s.th.inList && s.th.reader.Dropping? && s.th.writer.Pumping? && !s.th.kicked
  {
    var steps := [Register(false), BumpToken, PostOnline(false), Leave(Reader), Publish];
    assert steps[..0] == [] && steps[..5] == steps;
    RunMore(steps, 0);
    RunMore(steps, 1);
    RunMore(steps, 2);
    RunMore(steps, 3);
    RunMore(steps, 4);
    hide Run;
  }

  lemma {:induction false} RunMore(steps: seq<Step>, n: nat)
    requires n < |steps|
    ensures Run(steps[..n + 1]) == Next(Run(steps[..n]), steps[n])
    ensures n == 0 ==> Run(steps[..n]) == START
  {
    assert steps[..n + 1][..n] == steps[..n];
  }

  // ----- what the reader thread posts -----

  /** The step gets a packet from the remote and hands it on. */
  function HandedOn(s: Life, step: Step): seq<Packet> {
    if Enabled(s, step) && step.PumpIn? && step.got.Some? && step.ok then [step.got.value] else []
  }

  /** All that it has handed on. */
  function FromRemote(steps: seq<Step>): seq<Packet> {
    if steps == [] then []
    else FromRemote(steps[..|steps| - 1]) + HandedOn(Run(steps[..|steps| - 1]), steps[|steps| - 1])
  }

  /** A write to the socket pair has failed: the reader thread leaves without another word. */
  predicate Balked(s: Life, step: Step) {
    && Enabled(s, step)
    && match step
       case PostOnline(ok) => !ok
       case PumpIn(got, ok) => got.Some? && !ok
       case PostOffline(ok) => !ok
       case _ => false
  }

  ghost predicate EverBalked(steps: seq<Step>) {
    steps != [] && (EverBalked(steps[..|steps| - 1]) || Balked(Run(steps[..|steps| - 1]), steps[|steps| - 1]))
  }

  predicate Early(pc: ThreadPc) { pc.NotStarted? || pc.First? || pc.Posting? }

  predicate Pumps(pc: ThreadPc) { pc.Pumping? || pc.SayingOffline? }

  /** What has been posted, by where the reader thread stands, what it got, and whether a write failed. */
  predicate PostedAs(pc: ThreadPc, posted: seq<Packet>, got: seq<Packet>, balked: bool) {
    if Early(pc) then posted == [] && got == [] && !balked
    else if Pumps(pc) then posted == [Sync(1, 1)] + got && !balked
    else if balked then posted == [Sync(1, 1)] + got || (posted == [] && got == [])
    else posted == [Sync(1, 1)] + got + [Sync(0, 0)]
  }

  /** A step of the reader thread that may post something. */
  predicate OfReader(step: Step) {
    step.BumpToken? || step.PostOnline? || step.PumpIn? || step.PostOffline?
  }

  lemma OthersPost(s: Life, step: Step)
    requires Enabled(s, step) && !OfReader(step) && (s.th.main.Unregistered? ==> s.th.reader.NotStarted?)
    ensures NextWires(s.w, step).posted == s.w.posted && HandedOn(s, step) == [] && !Balked(s, step)
    ensures var pc := NextThreads(s.th, step, StopsNow(s.w, step)).reader;
            (Early(pc) <==> Early(s.th.reader)) && (Pumps(pc) <==> Pumps(s.th.reader))
  {
  }

  lemma {:induction false} ReaderPosts(s: Life, step: Step, got: seq<Packet>)
    requires Enabled(s, step) && OfReader(step) && (s.th.reader.Posting? ==> s.w.token == 1)
    requires PostedAs(s.th.reader, s.w.posted, got, false)
    ensures PostedAs(NextThreads(s.th, step, false).reader, NextWires(s.w, step).posted, got + HandedOn(s, step), Balked(s, step))
  {
    assert got + [] == got && [Sync(1, 1)] + [] == [Sync(1, 1)];
    if HandedOn(s, step) != [] {
      assert [Sync(1, 1)] + (got + [step.got.value]) == [Sync(1, 1)] + got + [step.got.value];
    }
  }

  lemma {:induction false} PostedNext(s: Life, step: Step, got: seq<Packet>, balked: bool)
    requires Inv(s) && PostedAs(s.th.reader, s.w.posted, got, balked)
    ensures PostedAs(Next(s, step).th.reader, Next(s, step).w.posted, got + HandedOn(s, step), balked || Balked(s, step))
  {
    assert s.th.main.Unregistered? ==> s.th.reader.NotStarted?;
    assert s.th.reader.Posting? ==> s.w.token == 1;
    assert OfReader(step) && Enabled(s, step) ==> Early(s.th.reader) || Pumps(s.th.reader);
    hide Inv, NextThreads, NextWires;
    assert got + [] == got;
    if !Enabled(s, step) {
    } else if OfReader(step) {
      ReaderPosts(s, step, got);
    } else {
      OthersPost(s, step);
    }
  }

  /**
   * In any run the reader thread posts SYNC-online with its token, then what it gets from the remote, in
   * order, and once the remote fails SYNC-offline; unless a write to the socket pair fails, and then no more.
   */
  lemma {:induction false} PostedExactly(steps: seq<Step>)
    ensures PostedAs(Run(steps).th.reader, Run(steps).w.posted, FromRemote(steps), EverBalked(steps))
  {
    hide Next, HandedOn, Balked, Inv;
    if steps != [] {
      var before := steps[..|steps| - 1];
      PostedExactly(before);
      RunInv(before);
      PostedNext(Run(before), steps[|steps| - 1], FromRemote(before), EverBalked(before));
    }
  }

  lemma {:induction false} SyncsPrefix(a: seq<Packet>, b: seq<Packet>)
    requires a <= b
    ensures Syncs(a) <= Syncs(b)
  {
    SyncsAppend(a, b[|a|..]);
    assert b == a + b[|a|..];
  }

  /** The SYNCs the writer thread gets are those the reader thread posted, in order, its own first. */
  lemma {:induction false} SyncsArriveInOrder(steps: seq<Step>)
    ensures var s := Run(steps);
            && Syncs(s.w.seen) <= Syncs(s.w.posted)
            && (s.w.posted != [] ==> s.w.posted[0] == Sync(1, s.w.token))
            && (Online(s.w.seen, s.w.token) && s.th.reader != NotStarted ==> s.w.handled != [] && s.w.handled[0] == Sync(1, s.w.token))
  {
    hide Run, Next, NextThreads, NextWires;
    RunInv(steps);
    var s := Run(steps);
    assert Syncs(s.w.seen) <= Syncs(s.w.handled);
    SyncsPrefix(s.w.handled, s.w.posted);
    NoSyncs(if s.w.handled == [] then s.w.seen else []);
  }
}
