/** The values shared by the map component and the peak editor: the peak
    record, the outcome of one call to the peaks REST endpoint, and the
    bookkeeping of ids over a list of peaks. */
module Peaks {

  datatype Option<+T> = None | Some(value: T)

  /** A peak as the map holds it. `id` is absent until the server has
      assigned one. A field the record does not carry (a freshly clicked
      position has no name or altitude) is the empty string. Coordinates are
      carried along and never computed on. */
  datatype Peak = Peak(id: Option<int>, name: string, altitude: string, lat: real, lon: real)

  /** Outcome of a POST, PUT or DELETE: the server answered with an ok status
      and (for POST and PUT) a decodable body, answered with a non-ok status,
      or the call threw (network failure, undecodable body). */
  datatype Response<+T> = Ok(body: T) | NotOk | Failed

  /** The ids present in a list, as the `Set` built from `peaks.map(p => p.id)`. */
  function Ids(s: seq<Peak>): set<Option<int>>
  {
    set p | p in s :: p.id
  }

  /** No two entries share a server-assigned id. */
  ghost predicate UniqueIds(s: seq<Peak>)
  {
    forall i, j | 0 <= i < j < |s| :: s[i].id.Some? ==> s[i].id != s[j].id
  }

  /** Number of entries whose id equals `id`. */
  function Count(s: seq<Peak>, id: Option<int>): nat
  {
    if s == [] then 0
    else (if s[0].id == id then 1 else 0) + Count(s[1..], id)
  }

  lemma {:induction false} CountBounds(s: seq<Peak>, id: Option<int>)
    ensures Count(s, id) <= |s|
    ensures Count(s, id) == 0 <==> id !in Ids(s)
  {
    if s != [] {
      CountBounds(s[1..], id);
      assert Ids(s) == {s[0].id} + Ids(s[1..]) by {
        assert s == [s[0]] + s[1..];
      }
    }
  }

  lemma {:induction false} CountAppend(a: seq<Peak>, b: seq<Peak>, id: Option<int>)
    ensures Count(a + b, id) == Count(a, id) + Count(b, id)
  {
    if a != [] {
      assert (a + b)[1..] == a[1..] + b;
      CountAppend(a[1..], b, id);
    } else {
      assert a + b == b;
    }
  }

  /** A list whose head's id does not occur in its tail, and whose tail is
      unique, is unique; and conversely. */
  lemma UniqueCons(x: Peak, t: seq<Peak>)
    ensures UniqueIds([x] + t) <==> UniqueIds(t) && (x.id.Some? ==> x.id !in Ids(t))
  {
    var s := [x] + t;
    if UniqueIds(s) {
      forall i, j | 0 <= i < j < |t| && t[i].id.Some?
        ensures t[i].id != t[j].id
      {
        assert s[i + 1] == t[i] && s[j + 1] == t[j];
      }
      forall j | 0 <= j < |t| && x.id.Some?
        ensures t[j].id != x.id
      {
        assert s[0] == x && s[j + 1] == t[j];
      }
    }
    if UniqueIds(t) && (x.id.Some? ==> x.id !in Ids(t)) {
      forall i, j | 0 <= i < j < |s| && s[i].id.Some?
        ensures s[i].id != s[j].id
      {
        if i == 0 {
          assert s[j] in t;
        } else {
          assert s[i] == t[i - 1] && s[j] == t[j - 1];
        }
      }
    }
  }

  /** In a list with unique ids, a server-assigned id occurs at most once. */
  lemma {:induction false} UniqueCount(s: seq<Peak>, id: Option<int>)
    requires UniqueIds(s) && id.Some?
    ensures Count(s, id) == if id in Ids(s) then 1 else 0
  {
    if s != [] {
      assert s == [s[0]] + s[1..];
      UniqueCons(s[0], s[1..]);
      UniqueCount(s[1..], id);
      CountBounds(s[1..], id);
      assert Ids(s) == {s[0].id} + Ids(s[1..]);
    }
  }
}
