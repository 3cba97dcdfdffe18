/** Client commands as runs of the replication system: evictions and the write itself are separate
    writes of the feed, so everything proved of runs holds of servers that evict. */
module ReplicationClients {
  import opened Commands
  import opened Views
  import opened VNodeIndexes
  import opened Databases
  import opened Mutations
  import opened ReplicationMasters
  import opened Replication
  import opened ReplicationInvariants
  import opened ReplicationConvergence
  import opened ReplicationLimits
  import Recoveries

  lemma {:induction false} WritesRun(s: Sys, writes: seq<Cmd>) returns (ss: seq<Sys>, es: seq<Event>)
    requires Inv(s) && Changes(s.db, writes)
    ensures |es| == |writes| && Steps(ss, es) && ss[0] == s && Inv(ss[|es|])
    ensures forall i | 0 <= i < |writes| :: es[i] == Event.Write(writes[i], true, {})
    ensures ss[|es|].db == Run(s.db, writes).db
    decreases |writes|
  {
    hide Inv, Apply, Coherent, Follows;
    if writes == [] {
      return [s], [];
    }
    var e := Event.Write(writes[0], true, {});
    assert Enabled(s, e);
    StepKeeps(s, e);
    var t := Step(s, e);
    WriteDb(s, writes[0]);
    DoneOk(s.db, writes[0]);
    var rest, more := WritesRun(t, writes[1..]);
    ss, es := [s] + rest, [e] + more;
    FollowsStep(s, e);
    OneThenSteps(s, e, t, rest, more);
  }

  lemma WriteDb(s: Sys, c: Cmd)
    requires s.m.base <= |s.m.log|
    ensures WriteStep(s, c, true, {}).db == Apply(s.db, c).db
  {
    hide Apply;
  }

  /** Beyond what it logs, a command can at most lock the dimension. */
  lemma ClientDims(db: Db, max: nat, c: Cmd)
    requires Coherent(db.index)
    ensures var d := Client(db, max, c); KeepsDim(Run(db, d.writes).db, d.db)
  {
    hide Coherent, Evict, Run, Changes, Apply;
    NoChanges(db);
    var e := if c.Vset? then Evict(db, max, c.userKey) else Done(true, db, []);
    if c.Vset? {
      EvictMakesRoom(db, max, c.userKey);
      EvictChanges(db, max, c.userKey);
    }
    LoggedChanges(e.db, c);
    ChangesConcat(db, e.writes, Logged(e.db, c).writes);
    assert [] + Logged(e.db, c).writes == Logged(e.db, c).writes && e.writes + [] == e.writes;
    Recoveries.ApplyDim(e.db, c);
  }

  /** Every client command is a run: its evictions and its own write one after the other, ending in
      the data the command leaves. */
  lemma ClientRun(s: Sys, max: nat, c: Cmd) returns (ss: seq<Sys>, es: seq<Event>)
    requires Inv(s)
    ensures Coherent(s.db.index)
    ensures var d := Client(s.db, max, c);
            && |es| == |d.writes| + 1 && Steps(ss, es) && ss[0] == s && Inv(ss[|es|]) && ss[|es|].db == d.db
            && forall i | 0 <= i < |d.writes| :: es[i] == Event.Write(d.writes[i], true, {})
  {
    hide Coherent, Apply, Client, Changes, ViewOf, Effects, GapFree, MasterInv, LinkInv, SlaveInv, Follows, Run;
    CoherentDb(s);
    ClientShows(s.db, max, c);
    var d := Client(s.db, max, c);
    var first, events := WritesRun(s, d.writes);
    var t := first[|events|];
    ChangesRun(s.db, d.writes);
    RunShows(s.db, d.writes);
    assert d.writes[..|d.writes|] == d.writes;
    var e := Touch(d.db);
    ClientDims(s.db, max, c);
    StepKeeps(t, e);
    var u := Step(t, e);
    ss, es := first + [t, u][1..], events + [e];
    assert Follows(t, e, u) by { FollowsStep(t, e); }
    StepsConcat(first, events, [t, u], [e]);
  }
}
