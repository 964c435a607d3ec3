/** Which end of a pair initiates: the rule of `cmd_up`, in its startup and its discovery copy. */
module Roles {
  import opened Basics

  /** The order on byte arrays: lexicographic. */
  predicate Greater(a: seq<byte>, b: seq<byte>) {
    if a == [] then false
    else if b == [] then true
    else a[0] > b[0] || (a[0] == b[0] && Greater(a[1..], b[1..]))
  }

  /** The `via_relay` the coordination server reports for a peer. */
  datatype Reported = NotReported | Unparsable | At(addr: nat)

  function Parsed(r: Reported): Option<nat> {
    if r.At? then Some(r.addr) else None
  }

  /** At startup a report that does not parse is an error. */
  function StartupRole(own: Key32, ownRelay: Option<nat>, peer: Key32, peerRelay: Reported): Option<bool> {
    if peerRelay.Unparsable? then None
    else Some(if ownRelay.Some? then true else if Parsed(peerRelay).Some? then false else Greater(own, peer))
  }

  /** At discovery it counts as no report. */
  function DiscoveryRole(own: Key32, ownRelay: Option<nat>, peer: Key32, peerRelay: Reported): bool {
    if ownRelay.Some? then true else if Parsed(peerRelay).Some? then false else Greater(own, peer)
  }

  /** A relay that does not parse is an error at startup, and only there; at discovery it makes no difference. */
  lemma UnparsableRelay(own: Key32, ownRelay: Option<nat>, peer: Key32, peerRelay: Reported)
    ensures StartupRole(own, ownRelay, peer, peerRelay).None? <==> peerRelay.Unparsable?
    ensures DiscoveryRole(own, ownRelay, peer, Unparsable) == DiscoveryRole(own, ownRelay, peer, NotReported)
    ensures !peerRelay.Unparsable? ==>
              StartupRole(own, ownRelay, peer, peerRelay) == Some(DiscoveryRole(own, ownRelay, peer, peerRelay))
  {
  }

  lemma {:induction false} ExactlyOneGreater(a: seq<byte>, b: seq<byte>)
    requires |a| == |b|
    ensures !(Greater(a, b) && Greater(b, a))
    ensures a != b <==> Greater(a, b) || Greater(b, a)
    decreases |a|
  {
    if a == [] {
    } else {
      ExactlyOneGreater(a[1..], b[1..]);
      assert a == [a[0]] + a[1..] && b == [b[0]] + b[1..];
    }
  }

  /** At the first byte where they differ, a has the larger one. */
  ghost predicate LargerAt(a: seq<byte>, b: seq<byte>, i: nat) {
    i < |a| && i < |b| && a[..i] == b[..i] && a[i] > b[i]
  }

  lemma {:induction false} GreaterIff(a: seq<byte>, b: seq<byte>)
    requires |a| == |b|
    ensures Greater(a, b) <==> exists i: nat :: LargerAt(a, b, i)
    decreases |a|
  {
    if a == [] {
    } else {
      GreaterIff(a[1..], b[1..]);
      if a[0] > b[0] { assert LargerAt(a, b, 0); }
      if i: nat :| LargerAt(a, b, i) {
        if i > 0 {
          assert a[0] == a[..i][0] && b[0] == b[..i][0];
          assert a[1..][..i - 1] == a[..i][1..] && b[1..][..i - 1] == b[..i][1..];
          assert LargerAt(a[1..], b[1..], i - 1);
        }
      }
      if a[0] == b[0] {
        if i: nat :| LargerAt(a[1..], b[1..], i) {
          assert a[..i + 1] == [a[0]] + a[1..][..i] && b[..i + 1] == [b[0]] + b[1..][..i];
          assert LargerAt(a, b, i + 1);
        }
      }
    }
  }

  /** The relay on record after a node's heartbeats: one without a relay leaves the last one standing. */
  function OnRecord(heartbeats: seq<Option<nat>>): Reported {
    if heartbeats == [] then NotReported
    else
      var last := heartbeats[|heartbeats| - 1];
      if last.Some? then At(last.value) else OnRecord(heartbeats[..|heartbeats| - 1])
  }

  /** One end uses either copy of the rule. */
  ghost predicate Takes(role: bool, own: Key32, ownRelay: Option<nat>, peer: Key32, peerRelay: Reported) {
    StartupRole(own, ownRelay, peer, peerRelay) == Some(role) || DiscoveryRole(own, ownRelay, peer, peerRelay) == role
  }

  /** For two nodes with different keys that see each other's relay as it is, whichever copy each of them uses,
      exactly one initiates, if and only if they are not both behind a relay; if they are, both do.  The one behind a
      relay does, and if neither is, the one with the larger key. */
  lemma ExactlyOneInitiates(a: Key32, relayA: Option<nat>, b: Key32, relayB: Option<nat>, seenA: Reported,
                            seenB: Reported,
                            roleA: bool, roleB: bool)
    requires a != b && !seenA.Unparsable? && !seenB.Unparsable?
    requires (seenA.At? <==> relayA.Some?) && (seenB.At? <==> relayB.Some?)
    requires Takes(roleA, a, relayA, b, seenB) && Takes(roleB, b, relayB, a, seenA)
    ensures roleA != roleB <==> !(relayA.Some? && relayB.Some?)
    ensures relayA.Some? && relayB.Some? ==> roleA && roleB
    ensures relayA.Some? && relayB.None? ==> roleA && !roleB
    ensures relayA.None? && relayB.None? ==> (roleA <==> exists i: nat :: LargerAt(a, b, i))
  {
    ExactlyOneGreater(a, b);
    GreaterIff(a, b);
  }

  /** The server's record is accurate for a node exactly when the node runs behind a relay or never reported one. */
  lemma {:induction false} RecordAccurateIff(heartbeats: seq<Option<nat>>)
    requires heartbeats != []
    ensures !OnRecord(heartbeats).Unparsable?
    ensures (OnRecord(heartbeats).At? <==> heartbeats[|heartbeats| - 1].Some?)
       <==> (heartbeats[|heartbeats| - 1].Some? || forall i | 0 <= i < |heartbeats| :: heartbeats[i].None?)
  {
    OnRecordIff(heartbeats);
  }

  lemma {:induction false} OnRecordIff(heartbeats: seq<Option<nat>>)
    ensures OnRecord(heartbeats).At? <==> exists i :: 0 <= i < |heartbeats| && heartbeats[i].Some?
    ensures !OnRecord(heartbeats).Unparsable?
  {
    if heartbeats == [] {
    } else {
      var front, last := heartbeats[..|heartbeats| - 1], heartbeats[|heartbeats| - 1];
      OnRecordIff(front);
      if OnRecord(front).At? {
        var i :| 0 <= i < |front| && front[i].Some?;
        assert heartbeats[i].Some?;
      }
      if last.Some? { assert heartbeats[|heartbeats| - 1].Some?; }
      else if i :| 0 <= i < |heartbeats| && heartbeats[i].Some? { assert front[i].Some?; }
    }
  }

  /** The relay on record is the one that the last heartbeat to name any has named. */
  lemma {:induction false} RecordIsLast(heartbeats: seq<Option<nat>>, i: nat)
    requires i < |heartbeats| && heartbeats[i].Some?
    requires forall k | i < k < |heartbeats| :: heartbeats[k].None?
    ensures OnRecord(heartbeats) == At(heartbeats[i].value)
  {
    if i < |heartbeats| - 1 { RecordIsLast(heartbeats[..|heartbeats| - 1], i); }
  }

  /** A node that once ran behind a relay and no longer does deadlocks with a direct peer if and only if it has
      the lesser key: then neither of them ever initiates. */
  lemma LeavingTheRelay(a: Key32, b: Key32, heartbeats: seq<Option<nat>>, i: nat)
    requires a != b && i < |heartbeats| && heartbeats[i].Some? && heartbeats[|heartbeats| - 1].None?
    ensures !DiscoveryRole(b, None, a, OnRecord(heartbeats))
    ensures DiscoveryRole(a, None, b, NotReported) <==> exists k: nat :: LargerAt(a, b, k)
    ensures (!DiscoveryRole(a, None, b, NotReported) && !DiscoveryRole(b, None, a, OnRecord(heartbeats)))
       <==> exists k: nat :: LargerAt(b, a, k)
  {
    OnRecordIff(heartbeats);
    GreaterIff(a, b);
    GreaterIff(b, a);
    ExactlyOneGreater(a, b);
  }
}
