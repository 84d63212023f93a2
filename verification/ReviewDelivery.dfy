/**
 * Publishing a task's review (internal/review/delivery.go): a snapshot fixes commit and marker, the result is saved, the
 * reviews on GitHub are searched for the marker, and only then is one posted and recorded. The PR lock serialises the
 * attempts of one task; everything else - other tasks, other people, lost requests and replies, an attempt that ends
 * anywhere - happens between any two operations. An attempt that crashes is one whose later operations all fail.
 */
module ReviewDelivery {
  import opened Collections
  import opened TaskRows
  import opened Text
  import opened GitHubReviews
  import TS = TaskStore

  function Marker(token: string): string {
    "<!-- pr-review-agent:" + token + " -->"
  }

  /** A review on GitHub that reconciliation takes for the one of snapshot `d`. */
  predicate Carries(review: Review, d: TS.Delivery) {
    review.id != 0 && review.state == Commented && review.commitID == d.commitSHA && Contains(review.body, Marker(d.marker))
  }

  /** A marker tells which snapshot it belongs to. */
  lemma MarkerTellsToken(a: string, b: string)
    requires Marker(a) == Marker(b)
    ensures a == b
  {
    var head := "<!-- pr-review-agent:";
    assert Marker(a) == head + (a + " -->") && Marker(b) == head + (b + " -->");
    assert a + " -->" == Marker(a)[|head|..] && b + " -->" == Marker(b)[|head|..];
    assert a == (a + " -->")[..|a|] && b == (b + " -->")[..|b|];
  }

  /** The body begins with the text and ends with the marker, with a blank line between. */
  predicate Shows(body: string, text: string, marker: string) {
    && |body| == |text| + 2 + |marker|
    && text <= body && body[|text|] == '\n' && body[|text| + 1] == '\n' && body[|text| + 2..] == marker
  }

  /** The text of a saved result: `comment` lays it out for a commit. */
  datatype Writing = Writing(result: Option<string>, comment: (string, string) -> string) {
    predicate ShownBy(review: Review, d: TS.Delivery) {
      result.Some? && Shows(review.body, comment(result.value, d.commitSHA), Marker(d.marker))
    }
  }

  /** Some review carries the snapshot's marker and has the recorded ID. */
  predicate Recorded(reviews: seq<Review>, d: TS.Delivery) {
    exists i | 0 <= i < |reviews| :: reviews[i].id == d.reviewId && Carries(reviews[i], d)
  }

  /**
   * At most one review has been posted for the task: after a result was saved, with the text of that result, at the
   * snapshot's commit and with its marker. A recorded ID belongs to a review with marker and commit.
   */
  ghost predicate Once(reviews: seq<Review>, posted: set<nat>, delivery: Option<TS.Delivery>, text: Writing) {
    && |posted| <= 1
    && (forall i <- posted :: i < |reviews|)
    && (posted != {} ==> text.result.Some?)
    && (text.result.Some? ==> delivery.Some?)
    && (delivery.Some? ==>
          && (forall i <- posted :: Carries(reviews[i], delivery.value) && text.ShownBy(reviews[i], delivery.value))
          && (delivery.value.reviewId != 0 ==> Recorded(reviews, delivery.value)))
  }

  /** A snapshot keeps its commit and marker, and its review ID once it has one. */
  predicate Kept(before: Option<TS.Delivery>, after: Option<TS.Delivery>) {
    before.Some? ==>
      && after.Some? && after.value.commitSHA == before.value.commitSHA && after.value.marker == before.value.marker
      && (before.value.reviewId != 0 ==> after.value.reviewId == before.value.reviewId)
  }

  /** Later reviews do not matter. */
  lemma OnceGrows(before: seq<Review>, after: seq<Review>, posted: set<nat>, delivery: Option<TS.Delivery>, text: Writing)
    requires Once(before, posted, delivery, text) && before <= after
    ensures Once(after, posted, delivery, text)
  {
    if delivery.Some? && Recorded(before, delivery.value) {
      var i :| 0 <= i < |before| && before[i].id == delivery.value.reviewId && Carries(before[i], delivery.value);
      assert after[i] == before[i];
    }
  }

  /** If nobody else's review carries the marker, there is at most one on GitHub that does. */
  lemma OneMarkedReview(reviews: seq<Review>, posted: set<nat>, d: TS.Delivery, text: Writing, i: nat, j: nat)
    requires Once(reviews, posted, Some(d), text)
    requires forall k | 0 <= k < |reviews| && k !in posted :: !Contains(reviews[k].body, Marker(d.marker))
    requires i < |reviews| && j < |reviews|
    requires Contains(reviews[i].body, Marker(d.marker)) && Contains(reviews[j].body, Marker(d.marker))
    ensures i == j && Carries(reviews[i], d) && text.ShownBy(reviews[i], d)
    ensures d.reviewId != 0 ==> d.reviewId == reviews[i].id
  {
    if i != j {
      SubsetSize({i, j}, posted);
    }
    if d.reviewId != 0 {
      var k :| 0 <= k < |reviews| && reviews[k].id == d.reviewId && Carries(reviews[k], d);
      if k != i {
        SubsetSize({i, k}, posted);
      }
    }
  }

  predicate AtTaskCommit(delivery: Option<TS.Delivery>, commit: Option<string>) {
    delivery.Some? ==> commit.Some? && (commit.value != "" ==> delivery.value.commitSHA == commit.value)
  }

  lemma OnceRecorded(reviews: seq<Review>, posted: set<nat>, d: TS.Delivery, text: Writing, i: nat)
    requires Once(reviews, posted, Some(d), text) && i < |reviews| && Carries(reviews[i], d)
    ensures Once(reviews, posted, Some(d.(reviewId := reviews[i].id)), text)
  {
    assert Carries(reviews[i], d.(reviewId := reviews[i].id));
  }

  /** A complete listing without the marker means that nothing has been posted. */
  lemma NonePosted(before: seq<Review>, listing: seq<Review>, posted: set<nat>, d: TS.Delivery, text: Writing)
    requires Once(before, posted, Some(d), text) && before <= listing
    requires forall k | 0 <= k < |listing| :: !Carries(listing[k], d)
    ensures posted == {}
  {
    forall i | 0 <= i < |before| ensures !Carries(before[i], d) {
      assert before[i] == listing[i];
    }
  }

  lemma OncePosted(reviews: seq<Review>, d: TS.Delivery, text: Writing)
    requires |reviews| > 0 && Carries(reviews[|reviews| - 1], d) && text.ShownBy(reviews[|reviews| - 1], d) && d.reviewId == 0
    ensures Once(reviews, {|reviews| - 1}, Some(d), text)
  {
  }

  /** The store as one task's attempts see it: any request may fail, with or without having been carried out. */
  class Database {
    const store: TS.Store
    const id: nat
    /** How many requests or replies have been lost so far. */
    ghost var faults: nat

    constructor (store: TS.Store, id: nat)
      ensures this.store == store && this.id == id
    {
      this.store, this.id, faults := store, id, 0;
    }

    /** The task is in a status in which a review can be recorded. */
    predicate Recordable()
      reads store
    {
      id in store.rows && (store.rows[id].status == Running || store.rows[id].status == Done)
    }

    function Snapshot(): Option<TS.Delivery>
      reads store
    {
      if id in store.deliveries then Some(store.deliveries[id]) else None
    }

    /** The saved result of the task's review. */
    function Result(): Option<string>
      reads store
    {
      if id in store.results then Some(store.results[id]) else None
    }

    /** The task's commit, from its creation on. */
    function Commit(): Option<string>
      reads store
    {
      if id in store.rows then Some(store.rows[id].commitSHA) else None
    }

    /** What other transactions leave alone. */
    twostate predicate Left()
      reads store
    {
      && Snapshot() == old(Snapshot()) && Result() == old(Result())
      && (old(Commit()).Some? ==> Commit() == old(Commit()))
    }

    /** Other transactions: any of the store, but the attempts' own three only for other tasks. */
    method Others()
      requires store.Valid()
      modifies store
      ensures true == store.Valid()
      ensures Left()
    {
      var n: nat := *;
      while n > 0
        invariant true == store.Valid()
        invariant Left()
      {
        Other();
        n := n - 1;
      }
    }

    method Other()
      requires store.Valid()
      modifies store
      ensures true == store.Valid()
      ensures Left()
    {
      var operation: int := *;
      match operation {
        case 0 => OtherTask();
        case 1 => OtherClaim();
        case 4 => OtherRetry();
        case 5 => OtherDeadLetter();
        case 2 =>
          var task: nat, status: Status, text: string, now: int := *, *, *, *;
          if task in store.rows && (status == Queued || status == Failed || status == Done || status == Superseded) {
            OtherStatus(task, status, text, now);
          }
        case 3 => OtherRequeue();
        case _ => OtherDelivery();
      }
    }

    method OtherTask()
      requires store.Valid()
      modifies store
      ensures true == store.Valid()
      ensures Left()
    {
      hide TS.Store.Valid;
      var task: nat, text: string, now: int := *, *, *;
      if * {
        var _ := store.TouchQueuedTask(task, now);
      } else if text != "" {
        var _, _ := store.CreateTask(TS.NewTask(text, text), text, now);
      }
    }

    lemma StatusKeepsCommit(row: Row, status: Status, text: string, now: int)
      ensures var u := UpdateStatus(row, status, text, now); u.Changed? ==> u.row.commitSHA == row.commitSHA
    {
    }

    /** Status changes from the webhook, the worker and its recovery scans. */
    method OtherStatus(task: nat, status: Status, text: string, now: int)
      requires store.Valid() && task in store.rows
      requires status == Queued || status == Failed || status == Done || status == Superseded
      modifies store
      ensures true == store.Valid()
      ensures Left()
    {
      hide TS.Store.Valid;
      StatusKeepsCommit(store.rows[task], status, text, now);
      var _ := store.UpdateTaskStatus(task, status, text, now);
    }

    method OtherRequeue()
      requires store.Valid()
      modifies store
      ensures true == store.Valid()
      ensures Left()
    {
      hide TS.Store.Valid;
      var task: nat, now: int := *, *;
      if task in store.rows {
        var _ := store.RequeueTask(task, now);
      }
    }

    method OtherClaim()
      requires store.Valid()
      modifies store
      ensures true == store.Valid()
      ensures Left()
    {
      hide TS.Store.Valid;
      var task: nat, attempt: nat, now: int := *, *, *;
      var _ := store.ClaimTask(task, attempt, now);
    }

    method OtherRetry()
      requires store.Valid()
      modifies store
      ensures true == store.Valid()
      ensures Left()
    {
      hide TS.Store.Valid;
      var task: nat, attempt: nat, max: nat, at: int, text: string, now: int := *, *, *, *, *, *;
      var _ := store.MarkTaskRetry(task, attempt, max, text, at, now);
    }

    method OtherDeadLetter()
      requires store.Valid()
      modifies store
      ensures true == store.Valid()
      ensures Left()
    {
      hide TS.Store.Valid;
      var task: nat, attempt: nat, max: nat, text: string, now: int := *, *, *, *, *;
      var _ := store.MarkTaskDeadLetter(task, attempt, max, text, now);
    }

    /** The other tasks' attempts. */
    method OtherDelivery()
      requires store.Valid()
      modifies store
      ensures true == store.Valid()
      ensures Left()
    {
      hide TS.Store.Valid;
      var task: nat, reviewId: nat, text: string, now: int := *, *, *, *;
      if task != id {
        if * {
          var _ := store.PrepareReviewDelivery(task, text, text);
        } else if * {
          var _ := store.CreateReviewResult(task, text);
        } else {
          var _ := store.MarkReviewDelivered(task, reviewId, now);
        }
      }
    }

    // ----- the attempts' own requests -----

    method GetReviewResultByTaskID() returns (r: Reply<Option<string>>)
      requires store.Valid()
      modifies store, this
      ensures true == store.Valid()
      ensures Left() && faults >= old(faults)
      ensures r.Reply? ==> r.value == Result()
      ensures r.Lost? ==> faults > old(faults)
    {
      hide TS.Store.Valid;
      Others();
      if * {
        faults := faults + 1;
        return Lost;
      }
      return Reply(Result());
    }

    method GetReviewDelivery() returns (r: Reply<TS.Delivery>)
      requires store.Valid()
      modifies store, this
      ensures true == store.Valid()
      ensures Left() && faults >= old(faults)
      ensures r.Reply? ==> Snapshot() == Some(r.value)
      ensures r.Lost? ==> faults > old(faults) || Snapshot().None?
    {
      hide TS.Store.Valid;
      Others();
      if * {
        faults := faults + 1;
        return Lost;
      }
      if id !in store.deliveries {
        return Lost;
      }
      return Reply(store.deliveries[id]);
    }

    method PrepareReviewDelivery(commitSHA: string, token: string) returns (r: Reply<TS.Delivery>)
      requires store.Valid()
      modifies store, this
      ensures true == store.Valid()
      ensures Result() == old(Result()) && (old(Commit()).Some? ==> Commit() == old(Commit())) && faults >= old(faults)
      ensures Snapshot() == old(Snapshot()) ||
              (&& old(Snapshot()).None? && Commit().Some?
               && Snapshot() == Some(TS.Delivery(if Commit().value != "" then Commit().value else commitSHA, token, 0)))
      ensures r.Reply? ==> Snapshot() == Some(r.value)
      ensures r.Lost? ==> faults > old(faults) || Commit().None? || commitSHA == ""
    {
      hide TS.Store.Valid;
      Others();
      if * {
        faults := faults + 1;
        return Lost;
      }
      var prepared := store.PrepareReviewDelivery(id, commitSHA, token);
      if * {
        faults := faults + 1;
        return Lost;
      }
      return if prepared.Ok? then Reply(prepared.value) else Lost;
    }

    method CreateReviewResult(result: string) returns (ok: bool)
      requires store.Valid()
      modifies store, this
      ensures true == store.Valid()
      ensures Snapshot() == old(Snapshot()) && (old(Commit()).Some? ==> Commit() == old(Commit())) && faults >= old(faults)
      ensures old(Result()).Some? ==> Result() == old(Result())
      ensures old(Result()).None? ==> (ok ==> Result().Some?) && (Result().Some? ==> Result().value == result)
      ensures !ok ==> faults > old(faults) || old(Result()).Some? || Commit().None?
    {
      hide TS.Store.Valid;
      Others();
      if * {
        faults := faults + 1;
        return false;
      }
      var created := store.CreateReviewResult(id, result);
      if * {
        faults := faults + 1;
        return false;
      }
      return created.Ok?;
    }

    method MarkReviewDelivered(reviewId: nat, now: int) returns (ok: bool)
      requires store.Valid()
      modifies store, this
      ensures true == store.Valid()
      ensures Result() == old(Result()) && (old(Commit()).Some? ==> Commit() == old(Commit())) && faults >= old(faults)
      ensures Snapshot() == old(Snapshot()) ||
              (&& old(Snapshot()).Some? && reviewId != 0
               && (old(Snapshot()).value.reviewId == 0 || old(Snapshot()).value.reviewId == reviewId)
               && Snapshot() == Some(old(Snapshot()).value.(reviewId := reviewId)))
      ensures ok ==> Snapshot().Some? && Snapshot().value.reviewId == reviewId && reviewId != 0 && Recordable()
      ensures !ok && old(Snapshot()).Some? && old(Snapshot()).value.reviewId == 0 && reviewId != 0 ==>
                faults > old(faults) || !Recordable()
    {
      hide TS.Store.Valid;
      Others();
      if * {
        faults := faults + 1;
        return false;
      }
      var error := store.MarkReviewDelivered(id, reviewId, now);
      if * {
        faults := faults + 1;
        return false;
      }
      return error.None?;
    }
  }

  datatype Outcome = Failure | HeadMoved | Completed | Proceed

  class Reviewer {
    const db: Database
    const gh: GitHub
    /** Lays out a saved result as the review's text, which names the commit. */
    const comment: (string, string) -> string

    constructor (db: Database, gh: GitHub, comment: (string, string) -> string)
      ensures this.db == db && this.gh == gh && this.comment == comment
      ensures db.store.Valid() && gh.posted == {} && db.Snapshot().None? && db.Result().None? ==> Valid()
    {
      this.db, this.gh, this.comment := db, gh, comment;
    }

    function Saved(): Writing
      reads db.store
    {
      Writing(db.Result(), comment)
    }

    /** One review at most, and a snapshot at the task's own commit if the webhook named one. */
    ghost predicate Valid()
      reads this, db.store, gh
    {
      && db.store.Valid()
      && Once(gh.reviews, gh.posted, db.Snapshot(), Saved())
      && AtTaskCommit(db.Snapshot(), db.Commit())
    }

    /** Requests and replies lost so far, on either side. */
    ghost function Faults(): nat
      reads db, gh
    {
      db.faults + gh.faults
    }

    /** Whatever has been posted shows the saved result, then the snapshot's marker. */
    ghost predicate PostedShowResult()
      reads this, db.store, gh
    {
      forall i <- gh.posted ::
        && i < |gh.reviews| && db.Snapshot().Some? && db.Result().Some?
        && var d := db.Snapshot().value; Shows(gh.reviews[i].body, comment(db.Result().value, d.commitSHA), Marker(d.marker))
    }

    /** Since `before`, the head has been read `n` times, and was the snapshot's commit each time. */
    ghost predicate HeadsWere(before: seq<string>, n: nat)
      reads db.store, gh
    {
      && db.Snapshot().Some? && |gh.heads| == |before| + n && before <= gh.heads
      && forall i | |before| <= i < |gh.heads| :: gh.heads[i] == db.Snapshot().value.commitSHA
    }

    /** Since `before`, the head has been read, and was not the snapshot's commit. */
    ghost predicate HeadWasOther(before: seq<string>)
      reads db.store, gh
    {
      db.Snapshot().Some? && before < gh.heads && gh.heads[|gh.heads| - 1] != db.Snapshot().value.commitSHA
    }

    /** Without lost requests, a snapshot that is complete can be published while its task is under way. */
    predicate Publishable(d: TS.Delivery)
      reads db.store, gh
    {
      d.marker != "" && d.commitSHA != "" && db.Recordable() && |gh.reviews| < PER_PAGE * MAX_PAGES
    }

    /** Saved reviews are reconciled first: only a marker found nowhere is posted. */
    method PublishSavedReview(d: TS.Delivery, result: string, now: int) returns (ok: bool)
      requires Valid() && db.Snapshot() == Some(d) && db.Result() == Some(result)
      modifies db.store, db, gh
      ensures true == Valid() && db.Result() == old(db.Result()) && gh.heads == old(gh.heads)
      ensures forall i <- gh.posted ::
                i < |gh.reviews| && Shows(gh.reviews[i].body, comment(result, d.commitSHA), Marker(d.marker))
      ensures Kept(old(db.Snapshot()), db.Snapshot()) && Faults() >= old(Faults())
      ensures ok ==> db.Snapshot().Some? && db.Snapshot().value.reviewId != 0
      ensures !ok ==> Faults() > old(Faults()) || !Publishable(d)
      ensures (exists i :: 0 <= i < |old(gh.reviews)| && Carries(old(gh.reviews)[i], d)) ==> gh.posted == old(gh.posted)
      ensures d.reviewId != 0 ==> ok && gh.posted == old(gh.posted)
      ensures d.reviewId == 0 && (d.marker == "" || d.commitSHA == "") ==> !ok && gh.posted == old(gh.posted)
    {
      hide TS.Store.Valid, Marker, Contains;
      if d.reviewId != 0 {
        return true;
      }
      if d.marker == "" || d.commitSHA == "" {
        return false;
      }
      var listing := gh.ListPullRequestReviews();
      OnceGrows(old(gh.reviews), gh.reviews, gh.posted, Some(d), Saved());
      if listing.Lost? {
        return false;
      }
      var found := FindMarked(listing.value, d);
      if found < |listing.value| {
        assert gh.reviews[found] == listing.value[found];
        ok := Record(d, found, now);
        return;
      }
      NonePosted(old(gh.reviews), listing.value, gh.posted, d, Saved());
      ok := Post(d, result, now);
    }

    /** The first review that carries the marker, or the end of the listing. */
    method FindMarked(listing: seq<Review>, d: TS.Delivery) returns (i: nat)
      ensures i <= |listing| && (i < |listing| ==> Carries(listing[i], d))
      ensures forall k | 0 <= k < i :: !Carries(listing[k], d)
    {
      i := 0;
      while i < |listing|
        invariant i <= |listing| && forall k | 0 <= k < i :: !Carries(listing[k], d)
      {
        var review := listing[i];
        if review.id != 0 && review.state == Commented && review.commitID == d.commitSHA &&
           Contains(review.body, Marker(d.marker)) {
          return;
        }
        i := i + 1;
      }
    }

    /** Records the review at position `i`. */
    method Record(d: TS.Delivery, i: nat, now: int) returns (ok: bool)
      requires Valid() && db.Snapshot() == Some(d) && db.Result().Some? && d.reviewId == 0
      requires i < |gh.reviews| && Carries(gh.reviews[i], d)
      modifies db.store, db
      ensures true == Valid() && db.Result() == old(db.Result())
      ensures Kept(old(db.Snapshot()), db.Snapshot()) && Faults() >= old(Faults())
      ensures ok ==> db.Snapshot().Some? && db.Snapshot().value.reviewId != 0
      ensures !ok ==> Faults() > old(Faults()) || !db.Recordable()
    {
      ok := db.MarkReviewDelivered(gh.reviews[i].id, now);
      OnceRecorded(gh.reviews, gh.posted, d, Saved(), i);
    }

    method Post(d: TS.Delivery, result: string, now: int) returns (ok: bool)
      requires Valid() && db.Snapshot() == Some(d) && db.Result() == Some(result) && d.reviewId == 0 && gh.posted == {}
      modifies db.store, db, gh
      ensures true == Valid() && db.Result() == old(db.Result()) && gh.heads == old(gh.heads)
      ensures Kept(old(db.Snapshot()), db.Snapshot()) && Faults() >= old(Faults())
      ensures ok ==> db.Snapshot().Some? && db.Snapshot().value.reviewId != 0
      ensures !ok ==> Faults() > old(Faults()) || d.commitSHA == "" || !db.Recordable()
    {
      hide TS.Store.Valid, Once, Carries, Shows;
      var created := Create(d, result);
      if created.Lost? {
        return false;
      }
      ok := Record(d, |gh.reviews| - 1, now);
    }

    /** Creates the review on GitHub: the result's text, a blank line, the marker. */
    method Create(d: TS.Delivery, result: string) returns (created: Reply<nat>)
      requires Valid() && db.Snapshot() == Some(d) && db.Result() == Some(result) && d.reviewId == 0 && gh.posted == {}
      modifies gh
      ensures true == Valid() && Faults() >= old(Faults()) && gh.heads == old(gh.heads)
      ensures created.Reply? ==> |gh.reviews| > 0 && Carries(gh.reviews[|gh.reviews| - 1], d)
      ensures created.Lost? ==> Faults() > old(Faults()) || d.commitSHA == ""
    {
      hide TS.Store.Valid, Once, Contains, Marker;
      var text := comment(result, d.commitSHA);
      var body := text + "\n\n" + Marker(d.marker);
      EndContains(text + "\n\n", Marker(d.marker));
      Placed(d);
      created := gh.CreatePullRequestReviewAtCommit(d.commitSHA, body);
      if gh.posted != {} {
        OncePosted(gh.reviews, d, Saved());
      } else {
        OnceGrows(old(gh.reviews), gh.reviews, {}, Some(d), Saved());
      }
    }

    lemma Placed(d: TS.Delivery)
      requires Valid()
      ensures gh.Placed()
    {
    }

    /** Finds out what an earlier attempt has left: a saved result to publish, or a snapshot to review. */
    method ResumeReview(token: string, now: int) returns (outcome: Outcome)
      requires Valid()
      modifies db.store, db, gh
      ensures true == Valid() && db.Result() == old(db.Result())
      ensures true == PostedShowResult()
      ensures Kept(old(db.Snapshot()), db.Snapshot()) && Faults() >= old(Faults())
      ensures outcome == Completed ==> db.Result().Some? && db.Snapshot().Some? && db.Snapshot().value.reviewId != 0
      ensures outcome == Proceed ==> db.Snapshot().Some? && db.Result().None?
      ensures outcome == Proceed ==> true == HeadsWere(old(gh.heads), 1)
      ensures outcome == HeadMoved ==> HeadWasOther(old(gh.heads))
      ensures outcome == Failure ==> Faults() > old(Faults()) || Stuck()
    {
      hide TS.Store.Valid, Marker, Contains, Shows;
      var saved := db.GetReviewResultByTaskID();
      if saved.Lost? {
        return Failure;
      }
      if saved.value.Some? {
        var delivery := db.GetReviewDelivery();
        if delivery.Lost? {
          return Failure;
        }
        var ok := PublishSavedReview(delivery.value, saved.value.value, now);
        return if ok then Completed else Failure;
      }
      var head := gh.GetPullRequest();
      OnceGrows(old(gh.reviews), gh.reviews, gh.posted, db.Snapshot(), Saved());
      if head.Lost? {
        return Failure;
      }
      outcome := Prepare(head.value, token);
    }

    /** Nothing an attempt can do: no task, no head, or a snapshot that cannot be published. */
    predicate Stuck()
      reads db.store, gh
    {
      db.Commit().None? || gh.head == "" || (db.Snapshot().Some? && !Publishable(db.Snapshot().value))
    }

    method Prepare(head: string, token: string) returns (outcome: Outcome)
      requires Valid() && db.Result().None?
      modifies db.store, db
      ensures true == Valid() && db.Result().None?
      ensures Kept(old(db.Snapshot()), db.Snapshot()) && Faults() >= old(Faults())
      ensures outcome == Failure || outcome == HeadMoved || outcome == Proceed
      ensures outcome == Proceed ==> db.Snapshot().Some? && db.Snapshot().value.commitSHA == head
      ensures outcome == HeadMoved ==> db.Snapshot().Some? && db.Snapshot().value.commitSHA != head
      ensures outcome == Failure ==> Faults() > old(Faults()) || db.Commit().None? || head == ""
    {
      var delivery := db.PrepareReviewDelivery(head, token);
      if delivery.Lost? {
        return Failure;
      }
      return if delivery.value.commitSHA != head then HeadMoved else Proceed;
    }

    /** Saves the result of a review whose commit is still the head, then publishes it. */
    method FinishReview(result: string, now: int) returns (outcome: Outcome)
      requires Valid() && db.Snapshot().Some? && db.Result().None?
      modifies db.store, db, gh
      ensures true == Valid() && true == PostedShowResult()
      ensures db.Result().None? || (db.Result() == Some(result) && HeadsWere(old(gh.heads), 1))
      ensures outcome == Completed ==> db.Result().Some?
      ensures outcome == HeadMoved ==> HeadWasOther(old(gh.heads))
      ensures Kept(old(db.Snapshot()), db.Snapshot()) && Faults() >= old(Faults())
      ensures outcome == Completed ==> db.Snapshot().Some? && db.Snapshot().value.reviewId != 0
      ensures outcome == Failure ==> Faults() > old(Faults()) || Stuck()
      ensures outcome != Proceed
    {
      hide TS.Store.Valid, Marker, Contains, Shows, Carries;
      var delivery := db.GetReviewDelivery();
      if delivery.Lost? {
        return Failure;
      }
      var head := gh.GetPullRequest();
      OnceGrows(old(gh.reviews), gh.reviews, gh.posted, db.Snapshot(), Saved());
      if head.Lost? {
        return Failure;
      }
      if head.value != delivery.value.commitSHA {
        return HeadMoved;
      }
      var created := db.CreateReviewResult(result);
      if !created {
        return Failure;
      }
      var ok := PublishSavedReview(delivery.value, result, now);
      return if ok then Completed else Failure;
    }

    /**
     * One attempt. `token` is the random marker it would give a new snapshot, `result` what its review finds, and
     * `reviewed` says whether reading the files and asking the model succeeds, which writes nothing. An attempt without
     * faults completes, finds that the head has moved, or cannot do anything.
     */
    method ReviewPR(token: string, result: string, reviewed: bool, now: int) returns (outcome: Outcome)
      requires Valid()
      modifies db.store, db, gh
      ensures true == Valid() && true == PostedShowResult()
      ensures db.Result() == old(db.Result()) ||
              (old(db.Result()).None? && reviewed && db.Result() == Some(result) && HeadsWere(old(gh.heads), 2))
      ensures outcome == Completed ==> db.Result().Some?
      ensures outcome == HeadMoved ==> HeadWasOther(old(gh.heads))
      ensures Kept(old(db.Snapshot()), db.Snapshot())
      ensures outcome == Completed ==> db.Snapshot().Some? && db.Snapshot().value.reviewId != 0
      ensures outcome == Failure ==> !reviewed || Faults() > old(Faults()) || Stuck()
      ensures outcome != Proceed
    {
      hide TS.Store.Valid, Once, Carries, Marker, Shows;
      outcome := ResumeReview(token, now);
      if outcome != Proceed {
        return;
      }
      if !reviewed {
        return Failure;
      }
      outcome := FinishReview(result, now);
    }

    /**
     * Any number of attempts, each with its own faults and its own findings: at most one review is posted for the task, at
     * the snapshot's commit, with its marker and the text of the one result that was saved, no matter which attempt posts
     * it. What the snapshot holds stays, and so does a saved result.
     */
    method Attempts(n: nat)
      requires Valid()
      modifies db.store, db, gh
      ensures true == Valid()
      ensures Kept(old(db.Snapshot()), db.Snapshot())
      ensures |gh.posted| <= 1
      ensures AtTaskCommit(db.Snapshot(), db.Commit())
      ensures forall i <- gh.posted :: i < |gh.reviews| && db.Snapshot().Some? && Carries(gh.reviews[i], db.Snapshot().value)
      ensures PostedShowResult() && (old(db.Result()).Some? ==> db.Result() == old(db.Result()))
    {
      for attempt := 0 to n
        invariant true == Valid()
        invariant Kept(old(db.Snapshot()), db.Snapshot()) && (old(db.Result()).Some? ==> db.Result() == old(db.Result()))
      {
        var token: string, result: string, reviewed: bool, now: int := *, *, *, *;
        var _ := ReviewPR(token, result, reviewed, now);
      }
    }
  }
}
