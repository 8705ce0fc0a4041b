/**
  The roster: who is in a cluster and serves which stage. From it alone each node
  tells its own share of the matrix and the next node for a pair.
 */
module Rosters {
  import opened Options
  import opened Bytes
  import opened Stages

  type Name = Bytes.Text

  /** The roles on the message path; executing is all three in one process. */
  datatype Capability = Capability(receiving: bool, processing: bool, sending: bool, executing: bool) {
    predicate Can(stage: Stage) {
      executing || match stage case Receive => receiving case Process => processing case Send => sending
    }
  }

  datatype Node = Node(name: Name, capability: Capability)

  function Lower(b: Byte): Byte {
    if 65 <= b <= 90 then b + 32 else b
  }

  /** A name with its ASCII letters in lower case. */
  function Fold(name: Name): seq<Byte> {
    seq(|name|, i requires 0 <= i < |name| => Lower(name[i]))
  }

  predicate Alike(a: Name, b: Name) {
    Fold(a) == Fold(b)
  }

  /** The first place `name` stands at, or the length. */
  function Position(names: seq<Name>, name: Name): (at: nat)
    ensures at <= |names| && (at < |names| ==> names[at] == name)
    ensures forall i :: 0 <= i < at ==> names[i] != name
  {
    if names == [] || names[0] == name then 0 else 1 + Position(names[1..], name)
  }

  ghost predicate NoDuplicates<T>(s: seq<T>) {
    forall i, j :: 0 <= i < j < |s| ==> s[i] != s[j]
  }

  function Serving(nodes: seq<Node>, stage: Stage): seq<Name> {
    if nodes == [] then []
    else (if nodes[0].capability.Can(stage) then [nodes[0].name] else []) + Serving(nodes[1..], stage)
  }

  /** The capability of the first node whose name is `name`, whatever the case
      of its letters; none when there is no such node. */
  function CapabilityIn(nodes: seq<Node>, name: Name): Capability {
    if nodes == [] then Capability(false, false, false, false)
    else if Alike(nodes[0].name, name) then nodes[0].capability
    else CapabilityIn(nodes[1..], name)
  }

  datatype Roster = Roster(nodes: seq<Node>) {
    function With(stage: Stage): seq<Name> {
      Serving(nodes, stage)
    }

    predicate CoversThePath() {
      forall stage: Stage :: With(stage) != []
    }

    predicate ServesAnyStage() {
      exists i :: 0 <= i < |nodes| && exists stage: Stage :: nodes[i].capability.Can(stage)
    }

    /** A path with a stage nobody declared is refused; no path at all is not. */
    predicate Refused() {
      ServesAnyStage() && !CoversThePath()
    }

    /** A stable partition of the matrix: the index modulo the receivers. */
    predicate Receives(name: Name, index: nat) {
      var receivers := With(Receive);
      var at := Position(receivers, name);
      at < |receivers| && index % |receivers| == at
    }

    /** The next node for a pair at `from`: the same one when it executes, otherwise
        the server its hash falls to. */
    function Target(from: Name, stage: Stage, hash: nat): Option<Name> {
      if CapabilityIn(nodes, from).executing then Some(from)
      else
        var serving := With(stage);
        if serving == [] then None else Some(serving[hash % |serving|])
    }

    ghost predicate Distinct() {
      forall i, j :: 0 <= i < j < |nodes| ==> !Alike(nodes[i].name, nodes[j].name)
    }
  }

  /** A node may run a stage's relay: the path is not refused and it declared
      the stage. */
  predicate MayRelay(roster: Roster, name: Name, stage: Stage) {
    !roster.Refused() && name in roster.With(stage)
  }

  lemma {:induction false} ServingIs(nodes: seq<Node>, stage: Stage, name: Name)
    ensures name in Serving(nodes, stage) <==> exists i :: 0 <= i < |nodes| && nodes[i].name == name && nodes[i].capability.Can(stage)
  {
    if nodes != [] {
      ServingIs(nodes[1..], stage, name);
      if i :| 0 <= i < |nodes| && nodes[i].name == name && nodes[i].capability.Can(stage) {
        if i > 0 { assert nodes[1..][i - 1] == nodes[i]; }
      }
      if name in Serving(nodes[1..], stage) {
        var i :| 0 <= i < |nodes[1..]| && nodes[1..][i].name == name && nodes[1..][i].capability.Can(stage);
        assert nodes[i + 1].name == name;
      }
    }
  }

  /** A roster is refused exactly when some stage is served and some is not. */
  lemma RefusedExactly(roster: Roster)
    ensures roster.Refused() <==>
            (exists stage: Stage :: roster.With(stage) != []) && (exists stage: Stage :: roster.With(stage) == [])
  {
    if i, stage: Stage :| 0 <= i < |roster.nodes| && roster.nodes[i].capability.Can(stage) {
      ServingIs(roster.nodes, stage, roster.nodes[i].name);
      assert roster.With(stage) != [];
    }
    if stage: Stage :| roster.With(stage) != [] {
      var name := roster.With(stage)[0];
      ServingIs(roster.nodes, stage, name);
    }
  }

  lemma {:induction false} ServingDistinct(nodes: seq<Node>, stage: Stage)
    requires Roster(nodes).Distinct()
    ensures NoDuplicates(Serving(nodes, stage))
  {
    if nodes != [] {
      ServingDistinct(nodes[1..], stage);
      ServingIs(nodes[1..], stage, nodes[0].name);
      var rest := Serving(nodes[1..], stage);
      assert forall j :: 0 <= j < |rest| ==> rest[j] in rest;
    }
  }

  lemma PositionOf(names: seq<Name>, at: nat)
    requires NoDuplicates(names) && at < |names|
    ensures Position(names, names[at]) == at
  {
    var p := Position(names, names[at]);
  }

  ghost predicate Taken(roster: Roster, index: nat) {
    exists name :: roster.Receives(name, index)
  }

  /** No two nodes take one pair. */
  lemma OneReceiver(roster: Roster, index: nat, a: Name, b: Name)
    requires roster.Receives(a, index) && roster.Receives(b, index)
    ensures a == b
  {
    var receivers := roster.With(Receive);
    assert a == receivers[Position(receivers, a)] && b == receivers[Position(receivers, b)];
  }

  lemma DistinctTake(roster: Roster, index: nat)
    requires roster.With(Receive) != [] && NoDuplicates(roster.With(Receive))
    ensures Taken(roster, index)
  {
    var names := roster.With(Receive);
    var at := index % |names|;
    PositionOf(names, at);
    assert roster.Receives(names[at], index);
  }

  lemma TakenIsFirst(roster: Roster, j: nat)
    requires j < |roster.With(Receive)| && Taken(roster, j)
    ensures forall i :: 0 <= i < j ==> roster.With(Receive)[i] != roster.With(Receive)[j]
  {
    var names := roster.With(Receive);
    var name :| roster.Receives(name, j);
    assert j % |names| == j by { SmallMod(j, |names|); }
    assert names[Position(names, name)] == name;
  }

  lemma SmallMod(j: nat, n: nat)
    requires j < n
    ensures j % n == j
  {
  }

  /** Every pair of the matrix is taken exactly when somebody receives and no
      receiver is named twice. */
  lemma EveryIndexReceived(roster: Roster)
    ensures (forall index: nat :: Taken(roster, index)) <==>
            roster.With(Receive) != [] && NoDuplicates(roster.With(Receive))
  {
    if roster.With(Receive) != [] && NoDuplicates(roster.With(Receive)) {
      forall index: nat ensures Taken(roster, index) { DistinctTake(roster, index); }
    }
    if forall index: nat :: Taken(roster, index) {
      assert Taken(roster, 0);
      forall j: nat | j < |roster.With(Receive)|
        ensures forall i :: 0 <= i < j ==> roster.With(Receive)[i] != roster.With(Receive)[j]
      {
        TakenIsFirst(roster, j);
      }
    }
  }

  /** The lookup gives the first node alike in name, or no capability at all. */
  lemma {:induction false} CapabilityIsFirst(nodes: seq<Node>, name: Name, at: nat)
    requires at <= |nodes| && forall i :: 0 <= i < at ==> !Alike(nodes[i].name, name)
    requires at < |nodes| ==> Alike(nodes[at].name, name)
    ensures at < |nodes| ==> CapabilityIn(nodes, name) == nodes[at].capability
    ensures at == |nodes| ==> forall stage: Stage :: !CapabilityIn(nodes, name).Can(stage)
  {
    if at > 0 { CapabilityIsFirst(nodes[1..], name, at - 1); }
  }

  lemma CapabilityOfNode(nodes: seq<Node>, at: nat)
    requires Roster(nodes).Distinct() && at < |nodes|
    ensures CapabilityIn(nodes, nodes[at].name) == nodes[at].capability
  {
    CapabilityIsFirst(nodes, nodes[at].name, at);
  }

  /** A role is its own stage and no other; executing is all of them. */
  lemma RolesAreApart(stage: Stage)
    ensures Capability(true, false, false, false).Can(stage) <==> stage == Receive
    ensures Capability(false, true, false, false).Can(stage) <==> stage == Process
    ensures Capability(false, false, true, false).Can(stage) <==> stage == Send
    ensures Capability(false, false, false, true).Can(stage)
  {
  }

  lemma ServingFirst(node: Node, rest: seq<Node>, stage: Stage)
    ensures Serving([node] + rest, stage) == (if node.capability.Can(stage) then [node.name] else []) + Serving(rest, stage)
  {
    assert ([node] + rest)[1..] == rest;
  }

  lemma Associates<T>(x: seq<T>, y: seq<T>, z: seq<T>)
    ensures x + (y + z) == (x + y) + z
  {
  }

  lemma FirstApart<T>(s: seq<T>, t: seq<T>)
    requires s != []
    ensures s == [s[0]] + s[1..] && s + t == [s[0]] + (s[1..] + t)
  {
  }

  /** The servers of a stage stand in the roster's order, each as often as it is there. */
  lemma {:induction false} ServingSplits(a: seq<Node>, b: seq<Node>, stage: Stage)
    ensures Serving(a + b, stage) == Serving(a, stage) + Serving(b, stage)
    decreases |a|
  {
    if |a| == 0 {
      assert a + b == b && Serving(a, stage) == [];
    } else {
      var node, rest := a[0], a[1..];
      FirstApart(a, b);
      ServingFirst(node, rest + b, stage);
      ServingFirst(node, rest, stage);
      ServingSplits(rest, b, stage);
      Associates(if node.capability.Can(stage) then [node.name] else [], Serving(rest, stage), Serving(b, stage));
    }
  }

  lemma ServingOne(node: Node, stage: Stage)
    ensures Serving([node], stage) == if node.capability.Can(stage) then [node.name] else []
  {
    assert [node][1..] == [];
  }

  lemma TwoAlikeInRoster(nodes: seq<Node>, name: Name, stage: Stage)
    requires name in Serving(nodes, stage)
    ensures Roster(nodes).ServesAnyStage()
  {
    ServingIs(nodes, stage, name);
  }

  /** A relay always finds somebody to hand on to, and whom it finds serves the
      next stage exactly when the sender's own lookup does not call it executing
      while it does not serve that stage. */
  lemma TargetServes(roster: Roster, from: Name, stage: Stage, next: Stage, hash: nat)
    requires MayRelay(roster, from, stage)
    ensures var to := roster.Target(from, next, hash);
            to.Some? && (to.value in roster.With(next) <==>
                         !(CapabilityIn(roster.nodes, from).executing && from !in roster.With(next)))
  {
    TwoAlikeInRoster(roster.nodes, from, stage);
    var serving := roster.With(next);
    if serving != [] { assert serving[hash % |serving|] in serving; }
  }

  /** The choice is the pair's and not the sender's: unless the sender's lookup calls
      it executing, each server is chosen by exactly the hashes that fall to its place,
      so all of them are and every sender chooses the same. */
  lemma TargetIsShared(roster: Roster, from: Name, stage: Stage, hash: nat, at: nat)
    requires !CapabilityIn(roster.nodes, from).executing
    requires NoDuplicates(roster.With(stage)) && at < |roster.With(stage)|
    ensures roster.Target(from, stage, hash) == Some(roster.With(stage)[at]) <==> hash % |roster.With(stage)| == at
    ensures forall other :: !CapabilityIn(roster.nodes, other).executing ==>
              roster.Target(other, stage, hash) == roster.Target(from, stage, hash)
  {
  }

  /** An executing node keeps a pair through every stage. */
  lemma ExecutingKeeps(roster: Roster, at: nat, stage: Stage, hash: nat)
    requires roster.Distinct() && at < |roster.nodes| && roster.nodes[at].capability.executing
    ensures roster.Target(roster.nodes[at].name, stage, hash) == Some(roster.nodes[at].name)
  {
    CapabilityOfNode(roster.nodes, at);
  }

  /** Names are alike exactly when they differ in the case of their letters only. */
  lemma AlikeIsCaseOnly(a: Name, b: Name)
    ensures Alike(a, b) <==> |a| == |b| && forall i :: 0 <= i < |a| ==>
              a[i] == b[i] || (65 <= a[i] <= 90 && b[i] == a[i] + 32) || (65 <= b[i] <= 90 && a[i] == b[i] + 32)
  {
    if Alike(a, b) {
      assert |Fold(a)| == |Fold(b)|;
      forall i | 0 <= i < |a|
        ensures a[i] == b[i] || (65 <= a[i] <= 90 && b[i] == a[i] + 32) || (65 <= b[i] <= 90 && a[i] == b[i] + 32)
      {
        assert Fold(a)[i] == Fold(b)[i];
      }
    }
    if |a| == |b| && forall i :: 0 <= i < |a| ==>
         a[i] == b[i] || (65 <= a[i] <= 90 && b[i] == a[i] + 32) || (65 <= b[i] <= 90 && a[i] == b[i] + 32) {
      assert Fold(a) == Fold(b);
    }
  }

  /** A relay may run exactly where its node declared the stage and every stage is
      served. */
  lemma MayRelayExactly(roster: Roster, name: Name, stage: Stage)
    ensures MayRelay(roster, name, stage) <==>
              name in roster.With(stage) && forall any: Stage :: roster.With(any) != []
  {
    RefusedExactly(roster);
  }

  /** With names distinct whatever the case of their letters it always does. */
  lemma TargetServesDistinct(roster: Roster, from: Name, stage: Stage, next: Stage, hash: nat)
    requires MayRelay(roster, from, stage) && roster.Distinct()
    ensures var to := roster.Target(from, next, hash); to.Some? && to.value in roster.With(next)
  {
    TargetServes(roster, from, stage, next, hash);
    ServingIs(roster.nodes, stage, from);
    var i :| 0 <= i < |roster.nodes| && roster.nodes[i].name == from && roster.nodes[i].capability.Can(stage);
    CapabilityOfNode(roster.nodes, i);
    ServingIs(roster.nodes, next, from);
  }

  /** Two nodes whose names differ only in case: `A` executes, `a` receives. */
  function Alikes(): Roster {
    AsciiIsUtf8([65]);
    AsciiIsUtf8([97]);
    Roster([Node([65], Capability(false, false, false, true)), Node([97], Capability(true, false, false, false))])
  }

  lemma ServingTwo(a: Node, b: Node, stage: Stage)
    ensures Serving([a, b], stage) == (if a.capability.Can(stage) then [a.name] else [])
                                      + (if b.capability.Can(stage) then [b.name] else [])
  {
    assert [a, b][1..] == [b] && [b][1..] == [];
    assert Serving([b], stage) == (if b.capability.Can(stage) then [b.name] else []) + Serving([], stage);
  }

  /** Names that differ only in case are not distinct enough: `a` hands on to
      itself, which does not process. */
  lemma AlikeNamesMislead()
    ensures var roster, a := Alikes(), Alikes().nodes[1].name;
            MayRelay(roster, a, Receive) && roster.Target(a, Process, 0) == Some(a) && a !in roster.With(Process)
  {
    var a, b := Alikes().nodes[0], Alikes().nodes[1];
    assert Alikes().nodes == [a, b];
    forall stage: Stage ensures Alikes().With(stage) == [a.name] + if stage.Receive? then [b.name] else [] {
      ServingTwo(a, b, stage);
    }
    assert Alikes().With(Receive)[1] == b.name && a.name[0] != b.name[0];
    assert Fold(a.name) == Fold(b.name);
  }
}
