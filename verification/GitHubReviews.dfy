/**
 * The reviews of one pull request on GitHub, in the order they were submitted, and the two calls the publisher makes
 * (internal/github/reviews.go). Other people review and push at any time; requests fail, and replies get lost.
 */
module GitHubReviews {
  import opened Collections
  import opened Text

  datatype State = Commented | Approved | ChangesRequested | Dismissed | Pending

  datatype Review = Review(id: nat, state: State, commitID: string, body: string)

  datatype Reply<T> = Reply(value: T) | Lost

  const PER_PAGE: nat := 100
  const MAX_PAGES: nat := 100

  class GitHub {
    /** Every review ever submitted; reviews stay as they are. */
    var reviews: seq<Review>
    var head: string
    /** Where in `reviews` the ones stand that the attempts of the task under study have posted. */
    ghost var posted: set<nat>
    /** How many requests or replies have been lost so far, and the heads that have been read. */
    ghost var faults: nat
    ghost var heads: seq<string>

    ghost predicate Placed()
      reads this
    {
      forall i <- posted :: i < |reviews|
    }

    constructor (head: string)
      ensures reviews == [] && this.head == head && posted == {}
    {
      this.head, reviews, posted, faults, heads := head, [], {}, 0, [];
    }

    /** Everyone else: more reviews, new pushes. */
    method Others()
      modifies this`reviews, this`head
      ensures old(reviews) <= reviews
    {
      var more: seq<Review> := *;
      var pushed: string := *;
      reviews, head := reviews + more, pushed;
    }

    method GetPullRequest() returns (r: Reply<string>)
      modifies this`reviews, this`head, this`faults, this`heads
      ensures old(reviews) <= reviews && faults >= old(faults)
      ensures r.Reply? ==> r.value == head && heads == old(heads) + [r.value]
      ensures r.Lost? ==> faults > old(faults) && heads == old(heads)
    {
      Others();
      if * {
        faults := faults + 1;
        return Lost;
      }
      heads := heads + [head];
      return Reply(head);
    }

    /** One page of the listing, as of now. */
    method Page(page: nat) returns (r: Reply<seq<Review>>)
      requires page >= 1
      modifies this`reviews, this`head, this`faults
      ensures old(reviews) <= reviews && faults >= old(faults)
      ensures r.Lost? ==> faults > old(faults)
      ensures r.Reply? ==> r.value == reviews[Min(PER_PAGE * (page - 1), |reviews|)..Min(PER_PAGE * page, |reviews|)]
    {
      Others();
      if * {
        faults := faults + 1;
        return Lost;
      }
      return Reply(reviews[Min(PER_PAGE * (page - 1), |reviews|)..Min(PER_PAGE * page, |reviews|)]);
    }

    /**
     * A listing that succeeds misses nothing: it holds every review there was when it began, in order. It fails when a
     * request fails, and always with 100 full pages, since what follows them is unknown.
     */
    method ListPullRequestReviews() returns (r: Reply<seq<Review>>)
      modifies this`reviews, this`head, this`faults
      ensures old(reviews) <= reviews && faults >= old(faults)
      ensures r.Reply? ==> old(reviews) <= r.value <= reviews && |r.value| < PER_PAGE * MAX_PAGES
      ensures r.Lost? ==> faults > old(faults) || |reviews| >= PER_PAGE * MAX_PAGES
    {
      var listed: seq<Review> := [];
      for page := 1 to MAX_PAGES + 1
        invariant old(reviews) <= reviews && faults >= old(faults)
        invariant |listed| == PER_PAGE * (page - 1) && listed <= reviews
      {
        var batch := Page(page);
        if batch.Lost? {
          return Lost;
        }
        assert listed == reviews[..|listed|];
        listed := listed + batch.value;
        assert listed == reviews[..|listed|];
        if |batch.value| < PER_PAGE {
          assert listed == reviews;
          return Reply(listed);
        }
      }
      return Lost;
    }

    /** Posts a comment review. The request may not arrive, and the reply may be lost or lack the new review's ID. */
    method CreatePullRequestReviewAtCommit(commitSHA: string, body: string) returns (r: Reply<nat>)
      requires Placed()
      modifies this`reviews, this`head, this`faults, this`posted
      ensures old(reviews) <= reviews
      ensures Placed() && faults >= old(faults)
      ensures posted == old(posted) ==> r.Lost?
      ensures r.Lost? ==> faults > old(faults) || commitSHA == ""
      ensures posted != old(posted) ==>
                && commitSHA != "" && |reviews| > |old(reviews)| && posted == old(posted) + {|reviews| - 1}
                && var review := reviews[|reviews| - 1];
                && review.id != 0 && review.state == Commented && review.commitID == commitSHA && review.body == body
                && (r.Reply? ==> r.value == review.id)
    {
      if commitSHA == "" {
        return Lost;
      }
      Others();
      if * {
        faults := faults + 1;
        return Lost;
      }
      var number: int := *;
      var id := if number > 0 then number else 1;
      reviews := reviews + [Review(id, Commented, commitSHA, body)];
      posted := posted + {|reviews| - 1};
      if * {
        faults := faults + 1;
        return Lost;
      }
      return Reply(id);
    }
  }
}
