/** Widget ratings: the stored average is updated in place, one rating per user. */
module Ratings {
  import opened Text

  datatype Rating = Rating(user: string, stars: int)

  datatype Reply = Ok | Fail(status: int)

  function Sum(ratings: seq<Rating>): int {
    if ratings == [] then 0 else Sum(ratings[..|ratings| - 1]) + ratings[|ratings| - 1].stars
  }

  ghost predicate InRange(ratings: seq<Rating>) {
    forall k :: 0 <= k < |ratings| ==> 1 <= ratings[k].stars <= 5
  }

  ghost predicate OnePerUser(ratings: seq<Rating>) {
    forall i, j :: 0 <= i < j < |ratings| ==> ratings[i].user != ratings[j].user
  }

  lemma {:induction false} SumInRange(ratings: seq<Rating>)
    requires InRange(ratings)
    ensures |ratings| <= Sum(ratings) <= 5 * |ratings|
    decreases |ratings|
  {
    if ratings == [] {
    } else {
      SumInRange(ratings[..|ratings| - 1]);
    }
  }

  lemma {:induction false} Divided(sum: real, n: real)
    requires n > 0.0
    ensures sum / n * n == sum
  {
  }

  lemma {:induction false} Between(avg: real, n: real, sum: real, lo: real, hi: real)
    requires n > 0.0 && avg * n == sum && lo * n <= sum <= hi * n
    ensures lo <= avg <= hi
  {
    assert (avg - lo) * n >= 0.0 && (hi - avg) * n >= 0.0;
    Sign(avg - lo, n);
    Sign(hi - avg, n);
  }

  lemma {:induction false} Sign(x: real, n: real)
    requires n > 0.0 && x * n >= 0.0
    ensures x >= 0.0
  {
    if x < 0.0 {
      Product(-x, n);
    }
  }

  lemma {:induction false} Product(x: real, n: real)
    requires x > 0.0 && n > 0.0
    ensures x * n > 0.0
  {
  }

  lemma {:induction false} Mean(sum: int, n: int, avg: real)
    requires 0 < n <= sum <= 5 * n && avg == sum as real / n as real
    ensures avg * n as real == sum as real && 1.0 <= avg <= 5.0
  {
    var s, k := sum as real, n as real;
    assert 1.0 * k <= s <= 5.0 * k;
    Divided(s, k);
    Between(avg, k, s, 1.0, 5.0);
  }

  function TotalOf(avg: real, n: nat): real {
    avg * n as real
  }

  function MeanOf(total: real, n: nat): real
    requires n > 0
  {
    total / n as real
  }

  /** The average times the count is the sum. */
  predicate Balanced(avg: real, n: nat, sum: int) {
    TotalOf(avg, n) == sum as real
  }

  /** Adding to the total and dividing by the new count gives the new mean. */
  lemma {:induction false} NextMean(avg: real, n: nat, sum: int, stars: int)
    requires Balanced(avg, n, sum) && n + 1 <= sum + stars <= 5 * (n + 1)
    ensures var next := MeanOf(TotalOf(avg, n) + stars as real, n + 1);
            Balanced(next, n + 1, sum + stars) && 1.0 <= next <= 5.0
  {
    var next := MeanOf(TotalOf(avg, n) + stars as real, n + 1);
    assert TotalOf(avg, n) + stars as real == (sum + stars) as real;
    Mean(sum + stars, n + 1, next);
  }

  predicate Rated(ratings: seq<Rating>, user: string) {
    exists k :: 0 <= k < |ratings| && ratings[k].user == user
  }

  lemma {:induction false} OnePerUserAppended(ratings: seq<Rating>, r: Rating)
    requires OnePerUser(ratings) && !Rated(ratings, r.user)
    ensures OnePerUser(ratings + [r])
  {
  }

  lemma {:induction false} InRangeAppended(ratings: seq<Rating>, r: Rating)
    requires InRange(ratings) && 1 <= r.stars <= 5
    ensures InRange(ratings + [r])
  {
  }

  lemma {:induction false} SumAppended(ratings: seq<Rating>, r: Rating)
    ensures Sum(ratings + [r]) == Sum(ratings) + r.stars
  {
    assert (ratings + [r])[..|ratings|] == ratings;
  }

  class Widget {
    const owner: string
    var ratings: seq<Rating>
    var count: nat
    var avg: real

    /** The stored average and count are those of the ratings. */
    ghost predicate Valid()
      reads this
    {
      count == |ratings| && Balanced(avg, |ratings|, Sum(ratings)) && InRange(ratings) && OnePerUser(ratings)
    }

    constructor (developer: string)
      ensures Valid() && owner == developer && ratings == [] && avg == 0.0
    {
      owner, ratings, count, avg := developer, [], 0, 0.0;
    }

    /** Whether the user rated before. */
    method HasRated(user: string) returns (found: bool)
      ensures found <==> Rated(ratings, user)
    {
      for i := 0 to |ratings|
        invariant forall k :: 0 <= k < i ==> ratings[k].user != user
      {
        if ratings[i].user == user {
          return true;
        }
      }
      found := false;
    }

    /** An owner and whoever rated before are refused; another rating counts once, and the average is
        again the exact mean, between 1 and 5. */
    method Rate(user: string, stars: int) returns (reply: Reply)
      requires Valid() && 1 <= stars <= 5
      modifies this
      ensures Valid()
      ensures reply == Ok <==> user != owner && !Rated(old(ratings), user)
      ensures reply == Ok ==> ratings == old(ratings) + [Rating(user, stars)] && 1.0 <= avg <= 5.0
      ensures reply != Ok ==> reply == Fail(400) && ratings == old(ratings) && count == old(count) && avg == old(avg)
    {
      hide Sum, InRange, OnePerUser, Rated, Balanced, TotalOf, MeanOf;
      if user == owner {
        return Fail(400);
      }
      var rated := HasRated(user);
      if rated {
        return Fail(400);
      }
      var oldTotal := TotalOf(avg, count);
      ratings := ratings + [Rating(user, stars)];
      count := count + 1;
      avg := MeanOf(oldTotal + stars as real, count);
      OnePerUserAppended(old(ratings), Rating(user, stars));
      SumAppended(old(ratings), Rating(user, stars));
      InRangeAppended(old(ratings), Rating(user, stars));
      SumInRange(ratings);
      NextMean(old(avg), |old(ratings)|, Sum(old(ratings)), stars);
      reply := Ok;
    }
  }
}
