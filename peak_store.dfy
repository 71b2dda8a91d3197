/** The list transformations the map component applies to its peaks when a
    server call succeeds: filtering an id out, appending, and merging a
    reloaded batch so that already-known peaks win. */
module PeakStore {
  import opened Peaks

  /** The list with every entry whose id equals `id` filtered out, keeping
      the others in order (`filter` with `!==`). */
  function Without(s: seq<Peak>, id: Option<int>): (r: seq<Peak>)
    ensures forall p :: p in r <==> p in s && p.id != id
    ensures |r| <= |s|
  {
    if s == [] then []
    else if s[0].id == id then Without(s[1..], id)
    else [s[0]] + Without(s[1..], id)
  }

  /** The entries of an incoming batch whose id is not in `known`, in
      incoming order. Duplicates inside the batch are kept. */
  function NewArrivals(known: set<Option<int>>, data: seq<Peak>): (r: seq<Peak>)
    ensures forall p :: p in r <==> p in data && p.id !in known
    ensures |r| <= |data|
  {
    if data == [] then []
    else if data[0].id in known then NewArrivals(known, data[1..])
    else [data[0]] + NewArrivals(known, data[1..])
  }

  /** A reloaded batch merged into the list: the old list, untouched and in
      place, followed by the incoming peaks whose id it does not hold. */
  function Merge(peaks: seq<Peak>, data: seq<Peak>): (r: seq<Peak>)
    ensures |peaks| <= |r| && r[..|peaks|] == peaks
    ensures forall k | |peaks| <= k < |r| :: r[k] in data && r[k].id !in Ids(peaks)
    ensures forall p | p in data && p.id !in Ids(peaks) :: p in r
    ensures forall p | p in r && p.id in Ids(peaks) :: p in peaks
  {
    var arrivals := NewArrivals(Ids(peaks), data);
    assert forall k | |peaks| <= k < |peaks + arrivals| :: (peaks + arrivals)[k] in arrivals;
    peaks + arrivals
  }

  /** The intended result of a successful update: the entries carrying the
      request's id are filtered out and the server's record is appended. */
  function Replace(peaks: seq<Peak>, id: Option<int>, payload: Peak): (r: seq<Peak>)
    ensures |r| > 0 && r[|r| - 1] == payload
    ensures forall p :: p in r <==> p == payload || (p in peaks && p.id != id)
  {
    Without(peaks, id) + [payload]
  }

  /** The result of a successful update as the code is written: the setter
      receives the filtered list as its first argument and the server's
      record as a second argument, which the setter ignores. */
  function UpdatedAsWritten(peaks: seq<Peak>, id: Option<int>, payload: Peak): (r: seq<Peak>)
    ensures forall p :: p in r <==> p in peaks && p.id != id
  {
    Without(peaks, id)
  }

  // ----- Deletion -----

  /** Filtering out an id the list does not hold changes nothing. */
  lemma {:induction false} WithoutAbsent(s: seq<Peak>, id: Option<int>)
    requires id !in Ids(s)
    ensures Without(s, id) == s
  {
    if s != [] {
      assert Ids(s[1..]) <= Ids(s);
      WithoutAbsent(s[1..], id);
      assert s == [s[0]] + s[1..];
    }
  }

  /** Filtering distributes over concatenation, so the kept entries stay in
      their original order. */
  lemma {:induction false} WithoutAppend(a: seq<Peak>, b: seq<Peak>, id: Option<int>)
    ensures Without(a + b, id) == Without(a, id) + Without(b, id)
  {
    if a == [] {
      assert a + b == b;
    } else {
      assert (a + b)[0] == a[0] && (a + b)[1..] == a[1..] + b;
      WithoutAppend(a[1..], b, id);
    }
  }

  /** Filtering removes exactly the entries carrying the id. */
  lemma {:induction false} WithoutCount(s: seq<Peak>, id: Option<int>)
    ensures |Without(s, id)| == |s| - Count(s, id)
    ensures Count(Without(s, id), id) == 0
  {
    if s != [] {
      WithoutCount(s[1..], id);
    }
  }

  /** Filtering keeps the ids unique. */
  lemma {:induction false} WithoutUnique(s: seq<Peak>, id: Option<int>)
    requires UniqueIds(s)
    ensures UniqueIds(Without(s, id))
  {
    if s != [] {
      assert s == [s[0]] + s[1..];
      UniqueCons(s[0], s[1..]);
      WithoutUnique(s[1..], id);
      if s[0].id != id {
        var rest := Without(s[1..], id);
        assert Ids(rest) <= Ids(s[1..]);
        UniqueCons(s[0], rest);
      }
    }
  }

  /** In a list with unique ids, deleting a present id removes exactly one
      entry, and deleting an absent one removes none. */
  lemma DeleteRemovesOne(s: seq<Peak>, id: Option<int>)
    requires UniqueIds(s) && id.Some?
    ensures |Without(s, id)| == if id in Ids(s) then |s| - 1 else |s|
  {
    WithoutCount(s, id);
    UniqueCount(s, id);
  }

  // ----- Creation -----

  /** Appending a created peak keeps the ids unique exactly when the
      server's id is new to the list. */
  lemma AppendUnique(s: seq<Peak>, payload: Peak)
    ensures UniqueIds(s + [payload]) <==> UniqueIds(s) && (payload.id.Some? ==> payload.id !in Ids(s))
  {
    var r := s + [payload];
    if UniqueIds(r) {
      forall i, j | 0 <= i < j < |s| && s[i].id.Some?
        ensures s[i].id != s[j].id
      {
        assert r[i] == s[i] && r[j] == s[j];
      }
      forall i | 0 <= i < |s| && payload.id.Some?
        ensures s[i].id != payload.id
      {
        assert r[i] == s[i] && r[|s|] == payload;
      }
    }
  }

  // ----- Update -----

  /** Under the intended replace, the list holds exactly one entry with the
      updated id: the server's record, last. */
  lemma ReplaceExactlyOne(peaks: seq<Peak>, id: Option<int>, payload: Peak)
    requires payload.id == id
    ensures Count(Replace(peaks, id, payload), id) == 1
  {
    WithoutCount(peaks, id);
    CountAppend(Without(peaks, id), [payload], id);
  }

  /** The intended replace keeps the ids unique. */
  lemma ReplaceUnique(peaks: seq<Peak>, id: Option<int>, payload: Peak)
    requires UniqueIds(peaks) && payload.id == id
    ensures UniqueIds(Replace(peaks, id, payload))
  {
    WithoutUnique(peaks, id);
    AppendUnique(Without(peaks, id), payload);
  }

  /** As written, a successful update loses the updated peak: no entry with
      its id remains, so the server's record is nowhere in the list. */
  lemma UpdateAsWrittenDropsPeak(peaks: seq<Peak>, id: Option<int>, payload: Peak)
    requires payload.id == id
    ensures payload !in UpdatedAsWritten(peaks, id, payload)
    ensures Count(UpdatedAsWritten(peaks, id, payload), id) == 0
    ensures |UpdatedAsWritten(peaks, id, payload)| < |Replace(peaks, id, payload)|
  {
    WithoutCount(peaks, id);
  }

  /** A concrete instance: renaming peak 1 empties a one-peak list as
      written, where the intended replace yields the renamed peak. */
  lemma UpdateAsWrittenExample()
    ensures UpdatedAsWritten([Peak(Some(1), "A", "100", 0.0, 0.0)], Some(1), Peak(Some(1), "C", "100", 0.0, 0.0)) == []
    ensures Replace([Peak(Some(1), "A", "100", 0.0, 0.0)], Some(1), Peak(Some(1), "C", "100", 0.0, 0.0))
            == [Peak(Some(1), "C", "100", 0.0, 0.0)]
  {
    var a := Peak(Some(1), "A", "100", 0.0, 0.0);
    assert Without([a], Some(1)) == Without([], Some(1));
  }

  // ----- Reload merge -----

  /** Selecting arrivals distributes over concatenation of batches. */
  lemma {:induction false} NewArrivalsAppend(known: set<Option<int>>, a: seq<Peak>, b: seq<Peak>)
    ensures NewArrivals(known, a + b) == NewArrivals(known, a) + NewArrivals(known, b)
  {
    if a == [] {
      assert a + b == b;
    } else {
      assert (a + b)[0] == a[0] && (a + b)[1..] == a[1..] + b;
      NewArrivalsAppend(known, a[1..], b);
    }
  }

  /** The arrivals of a batch with unique ids have unique ids. */
  lemma {:induction false} NewArrivalsUnique(known: set<Option<int>>, data: seq<Peak>)
    requires UniqueIds(data)
    ensures UniqueIds(NewArrivals(known, data))
  {
    if data != [] {
      assert data == [data[0]] + data[1..];
      UniqueCons(data[0], data[1..]);
      NewArrivalsUnique(known, data[1..]);
      if data[0].id !in known {
        var rest := NewArrivals(known, data[1..]);
        assert Ids(rest) <= Ids(data[1..]);
        UniqueCons(data[0], rest);
      }
    }
  }

  /** Two lists, each with unique ids, whose ids are disjoint, concatenate
      to a list with unique ids. */
  lemma ConcatUnique(a: seq<Peak>, b: seq<Peak>)
    requires UniqueIds(a) && UniqueIds(b)
    requires forall p | p in b :: p.id !in Ids(a)
    ensures UniqueIds(a + b)
  {
    var r := a + b;
    forall i, j | 0 <= i < j < |r| && r[i].id.Some?
      ensures r[i].id != r[j].id
    {
      if j < |a| {
        assert r[i] == a[i] && r[j] == a[j];
      } else if i < |a| {
        assert r[i] in a && r[j] in b;
      } else {
        assert r[i] == b[i - |a|] && r[j] == b[j - |a|];
      }
    }
  }

  /** Reloading keeps the ids unique when the list and the batch each have
      unique ids. */
  lemma MergeUnique(peaks: seq<Peak>, data: seq<Peak>)
    requires UniqueIds(peaks) && UniqueIds(data)
    ensures UniqueIds(Merge(peaks, data))
  {
    NewArrivalsUnique(Ids(peaks), data);
    ConcatUnique(peaks, NewArrivals(Ids(peaks), data));
  }

  /** Duplicates inside one batch are not filtered, so the batch's own
      uniqueness cannot be dropped from MergeUnique. */
  lemma MergeKeepsBatchDuplicates(p: Peak)
    requires p.id.Some?
    ensures !UniqueIds(Merge([], [p, p]))
  {
    var r := Merge([], [p, p]);
    assert Ids([]) == {};
    assert r == [p, p];
    assert r[0].id == r[1].id;
  }

  /** Reloading the same batch a second time changes nothing. */
  lemma MergeIdempotent(peaks: seq<Peak>, data: seq<Peak>)
    ensures Merge(Merge(peaks, data), data) == Merge(peaks, data)
  {
    var m := Merge(peaks, data);
    assert forall d | d in data :: d.id in Ids(m) by {
      forall d | d in data
        ensures d.id in Ids(m)
      {
        if d.id !in Ids(peaks) {
          assert d in m;
        } else {
          assert Ids(peaks) <= Ids(m) by {
            assert m == peaks + m[|peaks|..];
          }
        }
      }
    }
    NoArrivals(Ids(m), data);
    assert m + [] == m;
  }

  /** A batch whose every id is already known brings nothing. */
  lemma {:induction false} NoArrivals(known: set<Option<int>>, data: seq<Peak>)
    requires forall d | d in data :: d.id in known
    ensures NewArrivals(known, data) == []
  {
    if data != [] {
      assert data[0] in data;
      NoArrivals(known, data[1..]);
    }
  }

  /** The reload scenario: with peak 1 known, a batch holding peaks 1 and 2
      adds only peak 2, and a renamed copy of peak 1 does not overwrite it. */
  lemma MergeExample()
    ensures Merge([Peak(Some(1), "A", "", 0.0, 0.0)],
                  [Peak(Some(1), "B", "", 0.0, 0.0), Peak(Some(2), "C", "", 0.0, 0.0)])
            == [Peak(Some(1), "A", "", 0.0, 0.0), Peak(Some(2), "C", "", 0.0, 0.0)]
  {
    var a := Peak(Some(1), "A", "", 0.0, 0.0);
    assert Ids([a]) == {Some(1)} by {
      assert a in [a];
    }
  }
}
