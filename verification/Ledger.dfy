/** The epoch ledger of src/serverlessx/spd/contract.py: its map and two sets against the plain history
    of the reservations it accepted. */
module Ledger {
  import opened Wrappers
  import opened Contract
  import opened JsonValues

  /** A reservation is admissible when every earlier one of its request is of a smaller epoch, and no
      earlier one of any request shares its attempt or its buffer. */
  ghost predicate Admissible(history: seq<Metadata>, m: Metadata) {
    forall i :: 0 <= i < |history| ==>
      && (history[i].requestId == m.requestId ==> history[i].epoch < m.epoch)
      && history[i].attemptId != m.attemptId
      && history[i].bufferId != m.bufferId
  }

  /** A history each of whose entries was admissible when it was made. */
  ghost predicate Proper(history: seq<Metadata>) {
    forall j :: 0 <= j < |history| ==> history[j].Valid() && Admissible(history[..j], history[j])
  }

  /** The epoch and attempt last reserved for a request. */
  ghost function Latest(history: seq<Metadata>, requestId: string): Option<(int, string)>
    decreases |history|
  {
    if history == [] then None
    else
      var last := history[|history| - 1];
      if last.requestId == requestId then Some((last.epoch, last.attemptId))
      else Latest(history[..|history| - 1], requestId)
  }

  ghost predicate IsLastFor(history: seq<Metadata>, i: int, requestId: string) {
    && 0 <= i < |history| && history[i].requestId == requestId
    && forall j :: i < j < |history| ==> history[j].requestId != requestId
  }

  lemma {:induction false} LatestIsLast(history: seq<Metadata>, requestId: string)
    ensures Latest(history, requestId).None? <==> forall i :: 0 <= i < |history| ==> history[i].requestId != requestId
    ensures forall i :: IsLastFor(history, i, requestId) ==>
                          Latest(history, requestId) == Some((history[i].epoch, history[i].attemptId))
    decreases |history|
  {
    if history != [] {
      var n := |history| - 1;
      LatestIsLast(history[..n], requestId);
      if history[n].requestId != requestId {
        forall i | IsLastFor(history, i, requestId)
          ensures Latest(history, requestId) == Some((history[i].epoch, history[i].attemptId))
        {
          assert IsLastFor(history[..n], i, requestId);
        }
      }
    }
  }

  /** In a proper history the latest epoch of a request bounds all its epochs, so comparing with the
      latest alone decides staleness. */
  lemma {:induction false} LatestBoundsEpochs(history: seq<Metadata>, requestId: string)
    requires Proper(history)
    ensures var latest := Latest(history, requestId);
            forall i :: 0 <= i < |history| && history[i].requestId == requestId ==>
                          latest.Some? && history[i].epoch <= latest.value.0
    ensures var latest := Latest(history, requestId);
            latest.Some? ==> exists i :: 0 <= i < |history| && history[i].requestId == requestId
                                      && history[i].epoch == latest.value.0 && history[i].attemptId == latest.value.1
    decreases |history|
  {
    if history != [] {
      var n := |history| - 1;
      ProperPrefix(history);
      LatestBoundsEpochs(history[..n], requestId);
      assert Admissible(history[..n], history[n]);
    }
  }

  lemma ProperPrefix(history: seq<Metadata>)
    requires Proper(history) && history != []
    ensures Proper(history[..|history| - 1])
  {
    var init := history[..|history| - 1];
    forall j | 0 <= j < |init| ensures init[j].Valid() && Admissible(init[..j], init[j]) {
      assert init[..j] == history[..j];
    }
  }

  lemma ProperExtends(history: seq<Metadata>, m: Metadata)
    requires Proper(history) && m.Valid() && Admissible(history, m)
    ensures Proper(history + [m])
  {
    var longer := history + [m];
    forall j | 0 <= j < |longer| ensures longer[j].Valid() && Admissible(longer[..j], longer[j]) {
      assert longer[..j] == history[..j];
      if j == |history| {
        assert longer[..j] == history;
      }
    }
  }

  ghost function Attempts(history: seq<Metadata>): set<string> {
    set i | 0 <= i < |history| :: history[i].attemptId
  }

  ghost function Buffers(history: seq<Metadata>): set<string> {
    set i | 0 <= i < |history| :: history[i].bufferId
  }

  /** One map lookup and two set lookups decide admissibility. */
  lemma AdmissibleByLookup(history: seq<Metadata>, m: Metadata)
    requires Proper(history)
    ensures Admissible(history, m) <==>
              && (Latest(history, m.requestId).Some? ==> Latest(history, m.requestId).value.0 < m.epoch)
              && m.attemptId !in Attempts(history) && m.bufferId !in Buffers(history)
  {
    hide SafeId, IsSha256;
    LatestBoundsEpochs(history, m.requestId);
  }

  /** The map holds each request's latest reservation, and the sets every attempt and buffer used. */
  ghost predicate Refines(current: map<string, (int, string)>, attempts: set<string>, buffers: set<string>,
                          history: seq<Metadata>) {
    && Proper(history)
    && (forall r :: r in current <==> Latest(history, r).Some?)
    && (forall r :: r in current ==> Some(current[r]) == Latest(history, r))
    && attempts == Attempts(history)
    && buffers == Buffers(history)
  }

  lemma RefinesOneMore(current: map<string, (int, string)>, attempts: set<string>, buffers: set<string>,
                       history: seq<Metadata>,
                       m: Metadata)
    requires Refines(current, attempts, buffers, history) && m.Valid() && Admissible(history, m)
    ensures Refines(current[m.requestId := (m.epoch, m.attemptId)], attempts + {m.attemptId}, buffers + {m.bufferId},
                    history + [m])
  {
    hide SafeId, IsSha256, Admissible, Latest, Proper, Attempts, Buffers;
    ProperExtends(history, m);
    RecordOne(history, m);
  }

  class EpochLedger {
    var current: map<string, (int, string)>
    var seenAttempts: set<string>
    var seenBuffers: set<string>
    ghost var history: seq<Metadata>

    ghost predicate Valid()
      reads this
    {
      Refines(current, seenAttempts, seenBuffers, history)
    }

    constructor ()
      ensures Valid() && history == []
    {
      current, seenAttempts, seenBuffers, history := map[], {}, {}, [];
    }

    /** Accepts exactly the valid, admissible reservations, and records nothing else. */
    method Reserve(m: Metadata) returns (r: Result<(), Error>)
      requires Valid()
      modifies this
      ensures Valid()
      ensures r.Success? <==> m.Valid() && Admissible(old(history), m)
      ensures history == if r.Success? then old(history) + [m] else old(history)
      ensures r == Failure(MetadataError) <==> !m.Valid()
      ensures r.Failure? && m.Valid() ==> r.error == ProtocolError
      ensures r.Failure? ==>
                current == old(current) && seenAttempts == old(seenAttempts) && seenBuffers == old(seenBuffers)
    {
      if !m.Valid() {
        return Failure(MetadataError);
      }
      hide SafeId, IsSha256, Admissible, Latest, Proper, Attempts, Buffers;
      AdmissibleByLookup(history, m);
      if m.requestId in current && m.epoch <= current[m.requestId].0 {
        return Failure(ProtocolError);
      }
      if m.attemptId in seenAttempts {
        return Failure(ProtocolError);
      }
      if m.bufferId in seenBuffers {
        return Failure(ProtocolError);
      }
      RefinesOneMore(current, seenAttempts, seenBuffers, history, m);
      current := current[m.requestId := (m.epoch, m.attemptId)];
      seenAttempts := seenAttempts + {m.attemptId};
      seenBuffers := seenBuffers + {m.bufferId};
      history := history + [m];
      r := Success(());
    }

    /** Passes exactly for the epoch and attempt of the request's last accepted reservation. */
    method AssertCurrent(m: Metadata) returns (r: Result<(), Error>)
      requires Valid()
      ensures r.Success? <==> m.Valid() && exists i :: IsLastFor(history, i, m.requestId)
                                                    && history[i].epoch == m.epoch
                                                    && history[i].attemptId == m.attemptId
      ensures r.Failure? ==> r.error == if m.Valid() then ProtocolError else MetadataError
    {
      if !m.Valid() {
        return Failure(MetadataError);
      }
      LatestIsLast(history, m.requestId);
      LastExists(history, m.requestId);
      if m.requestId !in current || current[m.requestId] != (m.epoch, m.attemptId) {
        return Failure(ProtocolError);
      }
      r := Success(());
    }
  }

  lemma RecordOne(history: seq<Metadata>, m: Metadata)
    ensures forall r :: Latest(history + [m], r)
                     == if r == m.requestId then Some((m.epoch, m.attemptId)) else Latest(history, r)
    ensures Attempts(history + [m]) == Attempts(history) + {m.attemptId}
    ensures Buffers(history + [m]) == Buffers(history) + {m.bufferId}
  {
    var longer := history + [m];
    assert longer[..|longer| - 1] == history;
    assert longer[|history|] == m;
    assert forall i :: 0 <= i < |history| ==> longer[i] == history[i];
    assert forall i :: 0 <= i < |longer| ==> i == |history| || longer[i] == history[i];
  }

  lemma {:induction false} LastExists(history: seq<Metadata>, requestId: string)
    ensures Latest(history, requestId).Some? ==> exists i :: IsLastFor(history, i, requestId)
    decreases |history|
  {
    if history != [] {
      var n := |history| - 1;
      if history[n].requestId == requestId {
        assert IsLastFor(history, n, requestId);
      } else {
        LastExists(history[..n], requestId);
        if Latest(history, requestId).Some? {
          var i :| IsLastFor(history[..n], i, requestId);
          assert IsLastFor(history, i, requestId);
        }
      }
    }
  }
}
