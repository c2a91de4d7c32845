/** Listing the threads of an app server page by page, whatever the server answers. */
module ThreadDiscovery {
  import opened Common

  type Identity = string
  type Cursor = string

  datatype Page = Page(data: seq<Identity>, next: Option<Cursor>)

  /** The answer to reading one thread: its identity, and whether its fields could be mapped; or
      the request failed. */
  datatype Thread = Thread(id: Identity, ephemeral: bool, wellFormed: bool) | Unanswered

  datatype DiscoveryError =
    | RequestFailed
    | ThreadLimitExceeded
    | DuplicateIdentity
    | RepeatedCursor
    | DifferentIdentity
    | UnsupportedThread
    | PageLimitExceeded

  function Listing(pages: seq<Page>): seq<Identity> {
    if pages == [] then [] else Listing(pages[..|pages| - 1]) + pages[|pages| - 1].data
  }

  predicate Continues(page: Page) {
    page.next.Some? && page.next.value != ""
  }

  /** Every page continues, under a cursor of its own. */
  ghost predicate Walk(pages: seq<Page>) {
    (forall i :: 0 <= i < |pages| ==> Continues(pages[i]))
    && forall i, j :: 0 <= i < j < |pages| ==> pages[i].next != pages[j].next
  }

  /** The first `k` pages are a walk and the next one ends it, within the limits. */
  ghost predicate Complete(pages: seq<Page>, k: nat, maxThreads: nat) {
    k < |pages| && Walk(pages[..k]) && !Continues(pages[k]) && Acceptable(Listing(pages[..k + 1]), maxThreads)
  }

  ghost predicate Acceptable(listed: seq<Identity>, maxThreads: nat) {
    |listed| <= maxThreads && Distinct(listed)
  }

  predicate Readable(id: Identity, read: Identity -> Thread) {
    read(id).Thread? && read(id).id == id && (read(id).ephemeral || read(id).wellFormed)
  }

  function Kept(listed: seq<Identity>, read: Identity -> Thread): seq<Thread> {
    if listed == [] then []
    else
      var last := read(listed[|listed| - 1]);
      Kept(listed[..|listed| - 1], read) + if last.Unanswered? || last.ephemeral then [] else [last]
  }

  /** Ephemeral threads are left out and every other one is kept, each in its place. */
  lemma {:induction false} KeptExactly(before: seq<Identity>, id: Identity, after: seq<Identity>, read: Identity -> Thread)
    ensures Kept(before + [id] + after, read)
            == Kept(before, read) + (if read(id).Thread? && !read(id).ephemeral then [read(id)] else []) + Kept(after, read)
    ensures forall t :: t in Kept(before, read) ==> t.Thread? && !t.ephemeral
  {
    KeptNone(before, read);
    if after == [] {
      assert before + [id] + after == before + [id];
      assert (before + [id])[..|before|] == before;
    } else {
      var front := after[..|after| - 1];
      assert (before + [id] + after)[..|before + [id] + after| - 1] == before + [id] + front;
      KeptExactly(before, id, front, read);
    }
  }

  lemma {:induction false} KeptNone(listed: seq<Identity>, read: Identity -> Thread)
    ensures forall t :: t in Kept(listed, read) ==> t.Thread? && !t.ephemeral
  {
    if listed != [] {
      KeptNone(listed[..|listed| - 1], read);
    }
  }

  /** A first page without a cursor, or with an empty one, is the whole listing; with any other cursor it is not. */
  lemma FirstPageEnds(page: Page, maxThreads: nat)
    requires Distinct(page.data) && |page.data| <= maxThreads
    ensures Complete([page], 0, maxThreads) <==> page.next in {None, Some("")}
    ensures Listing([page]) == page.data
  {
    assert [page][..1] == [page] && [page][..0] == [];
    assert Listing([page]) == Listing([]) + page.data;
    assert Listing([]) == [];
  }

  lemma {:induction false} ListingGrows(pages: seq<Page>, i: nat, j: nat)
    requires i <= j <= |pages|
    ensures Listing(pages[..i]) <= Listing(pages[..j])
    decreases j
  {
    if i < j {
      ListingGrows(pages, i, j - 1);
      assert pages[..j][..j - 1] == pages[..j - 1];
    }
  }

  lemma WalkContinues(pages: seq<Page>, k: nat, j: nat)
    requires j < k <= |pages| && Walk(pages[..k])
    ensures Continues(pages[j])
  {
    assert Continues(pages[..k][j]);
  }

  /** Only one page can complete a listing. */
  lemma CompleteUnique(pages: seq<Page>, k: nat, j: nat, maxThreads: nat)
    requires Complete(pages, k, maxThreads) && Complete(pages, j, maxThreads)
    ensures k == j
  {
    if k < j {
      WalkContinues(pages, j, k);
    } else if j < k {
      WalkContinues(pages, k, j);
    }
  }

  lemma UnacceptableForGood(pages: seq<Page>, k: nat, m: nat, maxThreads: nat)
    requires k <= m <= |pages| && Acceptable(Listing(pages[..m]), maxThreads)
    ensures Acceptable(Listing(pages[..k]), maxThreads)
  {
    ListingGrows(pages, k, m);
    var shorter, longer := Listing(pages[..k]), Listing(pages[..m]);
    assert forall i :: 0 <= i < |shorter| ==> shorter[i] == longer[i];
  }

  lemma WalkShortened(pages: seq<Page>, k: nat, m: nat)
    requires k <= m <= |pages| && Walk(pages[..m])
    ensures Walk(pages[..k])
  {
    var shorter, longer := pages[..k], pages[..m];
    assert forall i :: 0 <= i < |shorter| ==> shorter[i] == longer[i];
  }

  /** Once the listing so far is refused, or a cursor came back, no later page completes it. */
  lemma RefusedForGood(pages: seq<Page>, k: nat, j: nat, maxThreads: nat)
    requires k < |pages| && Walk(pages[..k]) && Complete(pages, j, maxThreads)
    ensures Acceptable(Listing(pages[..k + 1]), maxThreads) && (Continues(pages[k]) ==> Walk(pages[..k + 1]))
  {
    if j < k {
      WalkContinues(pages, k, j);
    } else {
      UnacceptableForGood(pages, k + 1, j + 1, maxThreads);
      if j > k {
        WalkShortened(pages, k + 1, j);
      }
    }
  }

  method TakeIdentities(data: seq<Identity>, identities: set<Identity>) returns (taken: Option<set<Identity>>)
    ensures taken.Some? <==> Distinct(data) && forall id :: id in data ==> id !in identities
    ensures taken.Some? ==> taken.value == identities + (set id | id in data)
  {
    var seen := identities;
    for i := 0 to |data|
      invariant seen == identities + (set id | id in data[..i])
      invariant Distinct(data[..i]) && forall id :: id in data[..i] ==> id !in identities
    {
      if data[i] in seen {
        assert data[i] in data;
        if data[i] !in identities {
          var j :| 0 <= j < i && data[j] == data[i];
        }
        return None;
      }
      seen := seen + {data[i]};
    }
    assert data[..|data|] == data;
    return Some(seen);
  }

  lemma Refused(pages: seq<Page>, k: nat, maxThreads: nat)
    requires k < |pages| && Walk(pages[..k])
    requires !Acceptable(Listing(pages[..k + 1]), maxThreads) || (Continues(pages[k]) && !Walk(pages[..k + 1]))
    ensures forall j :: !Complete(pages, j, maxThreads)
    ensures !(Walk(pages) && Acceptable(Listing(pages), maxThreads))
  {
    hide Walk, Acceptable, Listing;
    forall j ensures !Complete(pages, j, maxThreads) {
      if Complete(pages, j, maxThreads) {
        RefusedForGood(pages, k, j, maxThreads);
      }
    }
    if Walk(pages) && Acceptable(Listing(pages), maxThreads) {
      assert pages[..|pages|] == pages;
      UnacceptableForGood(pages, k + 1, |pages|, maxThreads);
      WalkShortened(pages, k + 1, |pages|);
    }
  }

  lemma JoinedDistinct(s: seq<Identity>, t: seq<Identity>)
    requires Distinct(s)
    ensures Distinct(s + t) <==> Distinct(t) && forall id :: id in t ==> id !in s
  {
    var both := s + t;
    if Distinct(both) {
      forall i, j | 0 <= i < j < |t| ensures t[i] != t[j] {
        assert both[|s| + i] != both[|s| + j];
      }
      forall i, j | 0 <= i < |s| && 0 <= j < |t| ensures s[i] != t[j] {
        assert both[i] != both[|s| + j];
      }
    } else {
      var i, j :| 0 <= i < j < |both| && both[i] == both[j];
      assert j >= |s| && both[j] == t[j - |s|];
      if i >= |s| {
        assert both[i] == t[i - |s|];
      } else {
        assert both[i] == s[i] && s[i] in s && t[j - |s|] in t;
      }
    }
  }

  /** Page `k` is the first one that cannot be accepted, for this reason. */
  ghost predicate Faulty(pages: seq<Page>, k: nat, maxThreads: nat, error: DiscoveryError) {
    k < |pages| && Walk(pages[..k]) && Acceptable(Listing(pages[..k]), maxThreads)
    && match error
       case ThreadLimitExceeded => |Listing(pages[..k + 1])| > maxThreads
       case DuplicateIdentity => |Listing(pages[..k + 1])| <= maxThreads && !Distinct(Listing(pages[..k + 1]))
       case RepeatedCursor =>
         Acceptable(Listing(pages[..k + 1]), maxThreads) && Continues(pages[k])
         && exists i :: 0 <= i < k && pages[i].next == pages[k].next
       case _ => false
  }

  /** The thread is the first that cannot be read, for this reason. */
  ghost predicate Unreadable(listed: seq<Identity>, i: nat, read: Identity -> Thread, error: DiscoveryError) {
    i < |listed| && (forall j :: 0 <= j < i ==> Readable(listed[j], read))
    && match error
       case RequestFailed => read(listed[i]).Unanswered?
       case DifferentIdentity => read(listed[i]).Thread? && read(listed[i]).id != listed[i]
       case UnsupportedThread =>
         read(listed[i]).Thread? && read(listed[i]).id == listed[i] && !read(listed[i]).ephemeral && !read(listed[i]).wellFormed
       case _ => false
  }

  /** Page `k` completes a listing that holds a thread that cannot be read. */
  ghost predicate CannotRead(pages: seq<Page>, k: nat, maxThreads: nat, read: Identity -> Thread, error: DiscoveryError) {
    Complete(pages, k, maxThreads) && SomeUnreadable(Listing(pages[..k + 1]), read, error)
  }

  ghost predicate SomeUnreadable(listed: seq<Identity>, read: Identity -> Thread, error: DiscoveryError) {
    exists i :: Unreadable(listed, i, read, error)
  }

  lemma Fault(pages: seq<Page>, k: nat, maxThreads: nat, error: DiscoveryError)
    requires k < |pages| && Walk(pages[..k]) && Acceptable(Listing(pages[..k]), maxThreads)
    requires error in {ThreadLimitExceeded, DuplicateIdentity, RepeatedCursor}
    requires error == ThreadLimitExceeded ==> |Listing(pages[..k + 1])| > maxThreads
    requires error == DuplicateIdentity ==> |Listing(pages[..k + 1])| <= maxThreads && !Distinct(Listing(pages[..k + 1]))
    requires error == RepeatedCursor ==> Acceptable(Listing(pages[..k + 1]), maxThreads) && Continues(pages[k])
                                         && exists i :: 0 <= i < k && pages[i].next == pages[k].next
    ensures Faulty(pages, k, maxThreads, error)
    ensures forall j :: !Complete(pages, j, maxThreads)
    ensures !(Walk(pages) && Acceptable(Listing(pages), maxThreads))
  {
    WalkStep(pages, k);
    Refused(pages, k, maxThreads);
  }

  /** `pages` are the answers the server would give to successive list requests; the page limit is
      `maxPages`, and a request for a page beyond the answers fails. Succeeds exactly when some page
      completes the listing and every listed thread can be read; then gives the threads that are not
      ephemeral, in order. Otherwise the first page, or the first thread, that is at fault decides. */
  method Discover(pages: seq<Page>, maxPages: nat, maxThreads: nat, read: Identity -> Thread)
    returns (r: Result<seq<Thread>, DiscoveryError>)
    requires |pages| <= maxPages
    ensures r.Ok? <==> exists k :: Complete(pages, k, maxThreads)
                                   && forall id :: id in Listing(pages[..k + 1]) ==> Readable(id, read)
    ensures r.Ok? ==> exists k :: Complete(pages, k, maxThreads) && r.value == Kept(Listing(pages[..k + 1]), read)
    ensures r == Err(PageLimitExceeded) <==> |pages| == maxPages && Walk(pages) && Acceptable(Listing(pages), maxThreads)
    ensures |pages| < maxPages && Walk(pages) && Acceptable(Listing(pages), maxThreads) ==> r == Err(RequestFailed)
    ensures r.Err? && !(Walk(pages) && Acceptable(Listing(pages), maxThreads)) ==>
              (exists k :: Faulty(pages, k, maxThreads, r.error))
              || exists k :: CannotRead(pages, k, maxThreads, read, r.error)
  {
    var listed: seq<Identity> := [];
    var identities: set<Identity> := {};
    var cursors: set<Cursor> := {};
    for k := 0 to |pages|
      invariant listed == Listing(pages[..k]) && Acceptable(listed, maxThreads)
      invariant identities == set id | id in listed
      invariant Walk(pages[..k])
      invariant forall c :: c in cursors <==> exists i :: 0 <= i < k && pages[i].next == Some(c)
    {
      hide Walk, Distinct, Listing, Continues, Faulty, Unreadable, Readable, Kept;
      var page := pages[k];
      ListingStep(pages, k);
      JoinedDistinct(listed, page.data);
      if |listed| + |page.data| > maxThreads {
        Fault(pages, k, maxThreads, ThreadLimitExceeded);
        return Err(ThreadLimitExceeded);
      }
      var taken := TakeIdentities(page.data, identities);
      if taken.None? {
        Fault(pages, k, maxThreads, DuplicateIdentity);
        return Err(DuplicateIdentity);
      }
      listed, identities := listed + page.data, taken.value;
      WalkStep(pages, k);
      if Continues(page) {
        ContinuesMeans(page);
        if page.next.value in cursors {
          Fault(pages, k, maxThreads, RepeatedCursor);
          return Err(RepeatedCursor);
        }
        cursors := cursors + {page.next.value};
      } else {
        assert Complete(pages, k, maxThreads);
        r := ReadAll(listed, read);
        assert r.Err? ==> CannotRead(pages, k, maxThreads, read, r.error);
        forall j: nat | Complete(pages, j, maxThreads) ensures j == k {
          CompleteUnique(pages, k, j, maxThreads);
        }
        assert !Walk(pages) by {
          NotAWalk(pages, k);
        }
        return;
      }
    }
    assert pages[..|pages|] == pages;
    forall j: nat | Complete(pages, j, maxThreads) ensures false {
      NotAWalk(pages, j);
    }
    return Err(if |pages| < maxPages then RequestFailed else PageLimitExceeded);
  }

  lemma ListingStep(pages: seq<Page>, k: nat)
    requires k < |pages|
    ensures Listing(pages[..k + 1]) == Listing(pages[..k]) + pages[k].data
  {
    assert pages[..k + 1][..k] == pages[..k];
  }

  lemma ContinuesMeans(page: Page)
    requires Continues(page)
    ensures page.next.Some?
  {
  }

  lemma NotAWalk(pages: seq<Page>, k: nat)
    requires k < |pages| && !Continues(pages[k])
    ensures !Walk(pages)
  {
  }

  lemma WalkStep(pages: seq<Page>, k: nat)
    requires k < |pages| && Walk(pages[..k])
    ensures Walk(pages[..k + 1]) <==> Continues(pages[k]) && forall i :: 0 <= i < k ==> pages[i].next != pages[k].next
  {
    var shorter, longer := pages[..k], pages[..k + 1];
    assert forall i :: 0 <= i < k ==> longer[i] == shorter[i] == pages[i];
    assert longer[k] == pages[k];
  }

  method ReadAll(listed: seq<Identity>, read: Identity -> Thread) returns (r: Result<seq<Thread>, DiscoveryError>)
    ensures r.Ok? <==> forall id :: id in listed ==> Readable(id, read)
    ensures r.Ok? ==> r.value == Kept(listed, read)
    ensures r.Err? ==> SomeUnreadable(listed, read, r.error)
  {
    var threads: seq<Thread> := [];
    for i := 0 to |listed|
      invariant threads == Kept(listed[..i], read)
      invariant forall id :: id in listed[..i] ==> Readable(id, read)
    {
      var thread := read(listed[i]);
      assert listed[..i + 1][..i] == listed[..i];
      assert listed[i] in listed && forall j :: 0 <= j < i ==> listed[j] in listed[..i];
      if thread.Unanswered? {
        assert Unreadable(listed, i, read, RequestFailed);
        return Err(RequestFailed);
      }
      if thread.id != listed[i] {
        assert Unreadable(listed, i, read, DifferentIdentity);
        return Err(DifferentIdentity);
      }
      if !thread.ephemeral {
        if !thread.wellFormed {
          assert Unreadable(listed, i, read, UnsupportedThread);
          return Err(UnsupportedThread);
        }
        threads := threads + [thread];
      }
    }
    assert listed[..|listed|] == listed;
    return Ok(threads);
  }
}
