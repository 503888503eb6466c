/**
 * What the page's loader does with the values the submission store hands
 * back: keep every key whose value fetched and parsed, in key order, then
 * order the survivors newest first (descending `id`).
 */
module Loader {
  import opened Rsvp

  /** What fetching and parsing one listed key produced. */
  datatype GetOutcome =
    | FetchFailed        // `get` threw
    | NoValue            // `get` gave null, or a record whose `value` is missing or empty
    | ParseFailed        // `JSON.parse` of the value threw
    | Parsed(submission: Submission)

  /** The store's `list` call: it throws, or it names keys, each with what fetching it gave. */
  datatype ListOutcome = ListFailed | Listed(outcomes: seq<GetOutcome>)

  /** The browser's local fallback blob under the key "submissions". */
  datatype LocalOutcome =
    | NoBlob             // nothing stored, or an empty string
    | BlobUnparseable    // `JSON.parse` of the blob threw
    | Blob(stored: seq<Submission>)

  /** Which store the page finds: the key/value capability, or the local fallback. */
  datatype Backend = Remote(list: ListOutcome) | Local(local: LocalOutcome)

  /** The submissions of the keys that survived, in key order. */
  function Collect(outcomes: seq<GetOutcome>): (r: seq<Submission>)
    ensures |r| <= |outcomes|
  {
    if outcomes == [] then []
    else
      var last := outcomes[|outcomes| - 1];
      Collect(outcomes[..|outcomes| - 1]) + (if last.Parsed? then [last.submission] else [])
  }

  /** A failing key only drops itself: the keys after it are still collected. */
  lemma {:induction false} CollectConcat(a: seq<GetOutcome>, b: seq<GetOutcome>)
    ensures Collect(a + b) == Collect(a) + Collect(b)
    decreases |b|
  {
    if b == [] {
      assert a + b == a;
    } else {
      var b' := b[..|b| - 1];
      assert (a + b)[..|a + b| - 1] == a + b';
      CollectConcat(a, b');
    }
  }

  /** Each submission is kept exactly as often as a key produced it. */
  lemma {:induction false} CollectCount(outcomes: seq<GetOutcome>, s: Submission)
    ensures multiset(Collect(outcomes))[s] == multiset(outcomes)[Parsed(s)]
  {
    if outcomes != [] {
      var init := outcomes[..|outcomes| - 1];
      assert outcomes == init + [outcomes[|outcomes| - 1]];
      CollectCount(init, s);
    }
  }

  /** A submission is kept iff some listed key fetched and parsed to it. */
  lemma CollectMembership(outcomes: seq<GetOutcome>, s: Submission)
    ensures s in Collect(outcomes) <==> Parsed(s) in outcomes
  {
    CollectCount(outcomes, s);
    assert s in multiset(Collect(outcomes)) <==> s in Collect(outcomes);
    assert Parsed(s) in multiset(outcomes) <==> Parsed(s) in outcomes;
  }

  /** Newest first: ids never increase along the sequence. */
  predicate SortedByIdDesc(s: seq<Submission>) {
    forall i, j :: 0 <= i < j < |s| ==> s[i].id >= s[j].id
  }

  /** Dropping the newest element of a newest-first list leaves it newest first. */
  lemma SortedTail(s: seq<Submission>)
    requires s != [] && SortedByIdDesc(s)
    ensures SortedByIdDesc(s[1..])
  {
    forall i, j | 0 <= i < j < |s| - 1
      ensures s[1..][i].id >= s[1..][j].id
    {
      assert s[1..][i] == s[i + 1] && s[1..][j] == s[j + 1];
    }
  }

  /** A newest-first list stays newest first under a head at least as new as all of it. */
  lemma PrependSorted(x: Submission, t: seq<Submission>)
    requires SortedByIdDesc(t)
    requires forall k :: 0 <= k < |t| ==> t[k].id <= x.id
    ensures SortedByIdDesc([x] + t)
  {
    var r := [x] + t;
    forall i, j | 0 <= i < j < |r|
      ensures r[i].id >= r[j].id
    {
      if i > 0 {
        assert r[i] == t[i - 1] && r[j] == t[j - 1];
      } else {
        assert r[j] == t[j - 1];
      }
    }
  }

  /**
   * Places `x` before the first element whose id is not larger, so that an
   * element coming earlier in the input stays ahead of equal ids.
   */
  function InsertByIdDesc(x: Submission, s: seq<Submission>): (r: seq<Submission>)
    ensures multiset(r) == multiset(s) + multiset{x}
    ensures SortedByIdDesc(s) ==> SortedByIdDesc(r)
  {
    if s == [] || s[0].id <= x.id then [x] + s
    else
      assert s == [s[0]] + s[1..];
      var t := InsertByIdDesc(x, s[1..]);
      assert SortedByIdDesc(s) ==> SortedByIdDesc([s[0]] + t) by {
        if SortedByIdDesc(s) {
          SortedTail(s);
          forall k | 0 <= k < |t|
            ensures t[k].id <= s[0].id
          {
            assert t[k] in multiset(t);
            assert t[k] == x || t[k] in s[1..];
          }
          PrependSorted(s[0], t);
        }
      }
      [s[0]] + t
  }

  /** The comparator `b.id - a.id` sort: descending by id, a permutation of its input. */
  function SortByIdDesc(s: seq<Submission>): (r: seq<Submission>)
    ensures SortedByIdDesc(r)
    ensures multiset(r) == multiset(s)
  {
    if s == [] then []
    else
      assert s == [s[0]] + s[1..];
      InsertByIdDesc(s[0], SortByIdDesc(s[1..]))
  }

  /** Sorting a sequence that is already newest first leaves it as it is. */
  lemma {:induction false} SortKeepsSorted(s: seq<Submission>)
    requires SortedByIdDesc(s)
    ensures SortByIdDesc(s) == s
  {
    if s != [] {
      SortKeepsSorted(s[1..]);
      assert s == [s[0]] + s[1..];
    }
  }

  /** Sorting the loaded list a second time changes nothing. */
  lemma SortIdempotent(s: seq<Submission>)
    ensures SortByIdDesc(SortByIdDesc(s)) == SortByIdDesc(s)
  {
    SortKeepsSorted(SortByIdDesc(s));
  }

  /** Ids 5, 3 and 9 are installed as 9, 5, 3. */
  lemma SortExample(a: Submission, b: Submission, c: Submission)
    requires a.id == 5 && b.id == 3 && c.id == 9
    ensures SortByIdDesc([a, b, c]) == [c, a, b]
  {
    assert [a, b, c][1..] == [b, c];
    assert [b, c][1..] == [c];
    assert [c][1..] == [];
    assert SortByIdDesc([c]) == [c];
    assert SortByIdDesc([b, c]) == InsertByIdDesc(b, [c]) == [c, b];
    assert InsertByIdDesc(a, [c, b]) == [c] + InsertByIdDesc(a, [b]) == [c, a, b];
  }
}
