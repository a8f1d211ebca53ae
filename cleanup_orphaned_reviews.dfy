/**
 * The `cleanup_orphaned_reviews` management command: it deletes the reviews whose user
 * is null (or only reports them on a dry run), then looks for reviews whose user does
 * not exist, a query that by construction can never find one.
 */
module CleanupOrphanedReviews {
  import opened Wrappers
  import opened Tables
  import opened Users
  import opened Products

  /**
   * The query set `Review.objects.filter(user__isnull=True)`: a reference definition, whose
   * ensures only spell out membership; `Cleanup` states what the command does with it.
   */
  function Orphaned(rows: seq<Review>): (r: seq<Review>)
    ensures forall x :: x in r <==> x in rows && x.user.None?
  {
    Filter(rows, (x: Review) => x.user.None?)
  }

  /**
   * The reviews that keep a user, what deleting the orphans leaves behind: a reference
   * definition, together with the orphans a partition of the table.
   */
  function WithUser(rows: seq<Review>): (r: seq<Review>)
    ensures forall x :: x in r <==> x in rows && x.user.Some?
    ensures |r| + |Orphaned(rows)| == |rows|
  {
    FilterPartition(rows, (x: Review) => x.user.None?, (x: Review) => x.user.Some?);
    Filter(rows, (x: Review) => x.user.Some?)
  }

  /** `Review.objects.values_list('user', flat=True).distinct()`, without the nulls. */
  function ReviewUsers(rows: seq<Review>): (r: set<UserId>)
    ensures forall x :: x in rows && x.user.Some? ==> x.user.value in r
  {
    set x | x in rows && x.user.Some? :: x.user.value
  }

  /**
   * The reviews that query calls "invalid": a user is set but is not among the users of
   * the reviews. The subquery ranges over the review table itself, not the user table.
   */
  function InvalidUserReviews(rows: seq<Review>): (r: seq<Review>)
    ensures |r| <= |rows|
    ensures forall x :: x in r <==> x in rows && x.user.Some? && x.user.value !in ReviewUsers(rows)
  {
    Filter(rows, (x: Review) => x.user.Some? && x.user.value !in ReviewUsers(rows))
  }

  /** The "invalid user" query never finds a review: every review's own user is in the subquery. */
  lemma InvalidUserReviewsEmpty(rows: seq<Review>)
    ensures InvalidUserReviews(rows) == []
  {
    var users := ReviewUsers(rows);
    forall i | 0 <= i < |rows| ensures !(rows[i].user.Some? && rows[i].user.value !in users) {
      assert rows[i] in rows;
    }
    FilterNone(rows, (x: Review) => x.user.Some? && x.user.value !in users);
  }

  /**
   * The command. It returns the number of orphaned reviews it found (and, unless this is
   * a dry run, deleted) and the number of "invalid user" reviews; with no orphans it
   * stops before the second query, so that number is 0.
   */
  method Cleanup(table: ReviewTable, dryRun: bool) returns (count: nat, invalidCount: nat)
    modifies table
    ensures count == |Orphaned(old(table.rows))|
    ensures invalidCount == 0
    ensures count == 0 || dryRun ==> table.rows == old(table.rows)
    ensures count > 0 && !dryRun ==> table.rows == WithUser(old(table.rows))
    ensures forall x :: x in table.rows <==> x in old(table.rows) && (dryRun || x.user.Some?)
    ensures |old(table.rows)| - |table.rows| == if dryRun then 0 else count
  {
    count := |Orphaned(table.rows)|;
    invalidCount := 0;
    if count == 0 {
      ghost var rows := table.rows;
      forall x | x in rows ensures x.user.Some? {
      }
      return;
    }
    if !dryRun {
      table.rows := WithUser(table.rows);
    }
    var invalid := InvalidUserReviews(table.rows);
    InvalidUserReviewsEmpty(table.rows);
    invalidCount := |invalid|;
    if invalidCount > 0 {
      // The second report and deletion: proved unreachable.
      assert false;
    }
  }
}
