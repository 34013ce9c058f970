/** A document's embedding job when nothing else touches the document: attempts that go through its
    chunks in order, fill and charge what is missing, and stop at the first failing call. */
module EmbeddingJob {
  datatype Status = Processing | Ready | Failed

  /** A chunk as a job sees it. */
  datatype Piece = Piece(id: nat, embedded: bool)

  /** The chunks once the first `n` are embedded. */
  function FilledTo(chunks: seq<Piece>, n: nat): seq<Piece> {
    if chunks == [] || n == 0 then chunks else [Piece(chunks[0].id, true)] + FilledTo(chunks[1..], n - 1)
  }

  /** The ids to charge for embedding the first `n`: those that lack an embedding, in order. */
  function Due(chunks: seq<Piece>, n: nat): seq<nat> {
    if chunks == [] || n == 0 then [] else (if chunks[0].embedded then [] else [chunks[0].id]) + Due(chunks[1..], n - 1)
  }

  lemma {:induction false} FilledAt(chunks: seq<Piece>, n: nat, i: nat)
    requires i < |chunks|
    ensures |FilledTo(chunks, n)| == |chunks| && FilledTo(chunks, n)[i] == Piece(chunks[i].id, i < n || chunks[i].embedded)
  {
    if n == 0 {
    } else if i > 0 {
      FilledAt(chunks[1..], n - 1, i - 1);
    } else if |chunks| > 1 {
      FilledAt(chunks[1..], n - 1, 0);
    }
  }

  lemma {:induction false} NextFilled(chunks: seq<Piece>, n: nat)
    requires n < |chunks|
    ensures |FilledTo(chunks, n)| == |chunks| && FilledTo(chunks, n)[n] == chunks[n]
    ensures FilledTo(chunks, n + 1) == FilledTo(chunks, n)[n := Piece(chunks[n].id, true)]
    ensures Due(chunks, n + 1) == Due(chunks, n) + (if chunks[n].embedded then [] else [chunks[n].id])
  {
    if n > 0 {
      NextFilled(chunks[1..], n - 1);
    } else {
      assert FilledTo(chunks, 1) == [Piece(chunks[0].id, true)] + chunks[1..];
    }
  }

  /** Going on to `m` after `n` embeds what going to `m` at once does. */
  lemma {:induction false} FilledAfter(chunks: seq<Piece>, n: nat, m: nat)
    requires n <= m <= |chunks|
    ensures |FilledTo(chunks, n)| == |chunks|
    ensures FilledTo(FilledTo(chunks, n), m) == FilledTo(chunks, m)
  {
    if n > 0 {
      var head, rest := [Piece(chunks[0].id, true)], FilledTo(chunks[1..], n - 1);
      FilledAfter(chunks[1..], n - 1, m - 1);
      assert FilledTo(chunks, n) == head + rest;
      assert (head + rest)[1..] == rest;
    }
  }

  /** And it pays what that one would have left to pay: each missing chunk once, in order. */
  lemma {:induction false} DueAfter(chunks: seq<Piece>, n: nat, m: nat)
    requires n <= m <= |chunks|
    ensures Due(chunks, n) + Due(FilledTo(chunks, n), m) == Due(chunks, m)
  {
    if n > 0 {
      var rest := FilledTo(chunks[1..], n - 1);
      var first := if chunks[0].embedded then [] else [chunks[0].id];
      DueAfter(chunks[1..], n - 1, m - 1);
      var filled := [Piece(chunks[0].id, true)] + rest;
      assert FilledTo(chunks, n) == filled && filled[1..] == rest;
      assert Due(filled, m) == Due(rest, m - 1);
      assert Due(chunks, n) == first + Due(chunks[1..], n - 1);
      assert Due(chunks, m) == first + Due(chunks[1..], m - 1);
    }
  }

  /** How far one attempt gets: to the first chunk that lacks an embedding and whose call fails. */
  function Stop(chunks: seq<Piece>, embeds: nat -> bool): (n: nat)
    ensures n <= |chunks|
    ensures n < |chunks| ==> !chunks[n].embedded && !embeds(chunks[n].id)
    ensures forall i | 0 <= i < n :: chunks[i].embedded || embeds(chunks[i].id)
  {
    if chunks == [] || !(chunks[0].embedded || embeds(chunks[0].id)) then 0 else 1 + Stop(chunks[1..], embeds)
  }

  /** How far a number of attempts get, each going on where the last one stopped. */
  function Reach(chunks: seq<Piece>, attempts: seq<nat -> bool>): nat
    decreases |attempts|
  {
    if attempts == [] then 0
    else Stop(FilledTo(chunks, Reach(chunks, attempts[..|attempts| - 1])), attempts[|attempts| - 1])
  }

  /** The next attempt gets no less far, and what all have paid is what one run that far would. */
  lemma NextReach(chunks: seq<Piece>, attempts: seq<nat -> bool>, next: nat -> bool)
    requires Reach(chunks, attempts) <= |chunks|
    ensures var n, m := Reach(chunks, attempts), Reach(chunks, attempts + [next]);
            && n <= m <= |chunks| && m == Stop(FilledTo(chunks, n), next)
            && FilledTo(FilledTo(chunks, n), m) == FilledTo(chunks, m)
            && Due(chunks, n) + Due(FilledTo(chunks, n), m) == Due(chunks, m)
            && |FilledTo(chunks, m)| == |chunks|
  {
    var n := Reach(chunks, attempts);
    assert (attempts + [next])[..|attempts|] == attempts;
    FilledAfter(chunks, n, n);
    var m := Stop(FilledTo(chunks, n), next);
    if m < n {
      FilledAt(chunks, n, m);
    }
    FilledAfter(chunks, n, m);
    FilledAfter(chunks, m, m);
    DueAfter(chunks, n, m);
  }

  /** Where a job that has got through everything would still be after more attempts. */
  lemma {:induction false} ReachStays(chunks: seq<Piece>, attempts: seq<nat -> bool>, more: seq<nat -> bool>)
    requires Reach(chunks, attempts) == |chunks|
    ensures Reach(chunks, attempts + more) == |chunks|
    decreases |more|
  {
    if more == [] {
      assert attempts + more == attempts;
    } else {
      NextReach(chunks, attempts, more[0]);
      assert attempts + more == (attempts + [more[0]]) + more[1..];
      ReachStays(chunks, attempts + [more[0]], more[1..]);
    }
  }

  /** A document's embedding job when nothing else touches the document: its chunks by index, the
      log of charges, and the knowledge version. */
  class DocumentEmbedding {
    var status: Status
    var chunks: seq<Piece>
    var charges: seq<nat>
    var version: nat

    constructor (pieces: seq<Piece>)
      ensures status == Processing && chunks == pieces && charges == [] && version == 0
    {
      status, chunks, charges, version := Processing, pieces, [], 0;
    }

    /** Fills an embedding that is still missing and charges it; anything else is left alone. */
    method SaveAndMeter(i: nat)
      requires i < |chunks|
      modifies this
      ensures chunks == old(chunks)[i := Piece(old(chunks)[i].id, true)] && status == old(status) && version == old(version)
      ensures charges == old(charges) + (if old(chunks)[i].embedded then [] else [old(chunks)[i].id])
    {
      if !chunks[i].embedded {
        charges := charges + [chunks[i].id];
        chunks := chunks[i := Piece(chunks[i].id, true)];
      }
    }

    /** Goes through the chunks in order; the first failing embedding call ends the run with what
        was done so far kept, and only a run that gets through sets the status and bumps the
        version. A document already in a final status is left alone. */
    method Process(embeds: nat -> bool) returns (ok: bool)
      modifies this
      ensures old(status) != Processing ==> ok && status == old(status) && chunks == old(chunks) && charges == old(charges) && version == old(version)
      ensures old(status) == Processing ==>
                && ok == (Stop(old(chunks), embeds) == |old(chunks)|)
                && chunks == FilledTo(old(chunks), Stop(old(chunks), embeds))
                && charges == old(charges) + Due(old(chunks), Stop(old(chunks), embeds))
                && status == (if ok then Ready else Processing) && version == old(version) + (if ok then 1 else 0)
    {
      if status != Processing {
        return true;
      }
      ghost var stop := Stop(chunks, embeds);
      var i := 0;
      while i < |chunks|
        invariant 0 <= i <= stop <= |chunks| == |old(chunks)|
        invariant chunks == FilledTo(old(chunks), i)
        invariant charges == old(charges) + Due(old(chunks), i)
        invariant status == old(status) && version == old(version)
      {
        NextFilled(old(chunks), i);
        if !chunks[i].embedded {
          if !embeds(chunks[i].id) {
            return false;
          }
          SaveAndMeter(i);
        }
        i := i + 1;
      }
      status, version := Ready, version + 1;
      return true;
    }

    /** A job with its attempts, one of which may follow another until the first that gets through;
        when all are used up the document has failed. However many there were, together they have
        paid for every chunk up to where they stopped that lacked an embedding, once and in order. */
    method RunJob(attempts: seq<nat -> bool>) returns (ok: bool)
      requires status == Processing && |attempts| > 0
      modifies this
      ensures ok == (Reach(old(chunks), attempts) == |old(chunks)|)
      ensures Reach(old(chunks), attempts) <= |old(chunks)|
      ensures chunks == FilledTo(old(chunks), Reach(old(chunks), attempts))
      ensures charges == old(charges) + Due(old(chunks), Reach(old(chunks), attempts))
      ensures status == (if ok then Ready else Failed) && version == old(version) + (if ok then 1 else 0)
    {
      ghost var start, before, reach := chunks, charges, 0;
      var made := 0;
      ok := false;
      while made < |attempts| && !ok
        invariant 0 <= made <= |attempts| && reach == Reach(start, attempts[..made])
        invariant reach <= |start| == |chunks| && chunks == FilledTo(start, reach) && charges == before + Due(start, reach)
        invariant ok == (made > 0 && reach == |start|)
        invariant status == (if ok then Ready else Processing) && version == old(version) + (if ok then 1 else 0)
        decreases |attempts| - made
      {
        NextReach(start, attempts[..made], attempts[made]);
        assert attempts[..made + 1] == attempts[..made] + [attempts[made]];
        ok := Process(attempts[made]);
        made := made + 1;
        assert charges == before + (Due(start, reach) + Due(FilledTo(start, reach), Reach(start, attempts[..made])));
        reach := Reach(start, attempts[..made]);
      }
      assert attempts == attempts[..made] + attempts[made..];
      if ok {
        ReachStays(start, attempts[..made], attempts[made..]);
      } else {
        assert attempts[..made] == attempts;
        status := Failed;
      }
    }
  }
}
