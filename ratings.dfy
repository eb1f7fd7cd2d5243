/** Ratings: one to five stars given to a listing by the e-mail address of a
    registered account, at most once per listing and address, and the per-listing
    statistics built from them. */
module Ratings {
  import opened Common
  import opened Database
  import opened Accounts

  // ---------------------------------------------------------------- addRating

  /** addRating's checks in the handler's order, and the row it appends under the
      next serial `id`. `stars` is the body's `rating` as parseInt reads it. The
      listing must be active; unlike an order, its farmer's account is not
      consulted. */
  function CheckRating(listings: map<nat, Listing>, users: map<nat, User>, ratings: seq<Rating>,
                       listingId: nat, email: string, stars: Input<int>, id: nat): (r: Result<Rating>)
    ensures (email == "" || stars.Missing?) ==> r == Err(Error(400, RatingFieldsRequired))
    ensures (email != "" && stars.Given? && !IsEmail(email)) ==> r == Err(Error(400, InvalidEmail))
    ensures (email != "" && stars.Given? && IsEmail(email)
             && (stars.parsed.None? || stars.parsed.value < 1 || stars.parsed.value > 5))
            ==> r == Err(Error(400, RatingOutOfRange))
    ensures r.Ok? <==>
              && email != "" && IsEmail(email) && stars.Given? && stars.parsed.Some?
              && 1 <= stars.parsed.value <= 5
              && listingId in listings && listings[listingId].isActive
              && HasActiveEmail(users, email)
              && !HasRating(ratings, listingId, email)
    ensures (r.Err? && IsEmail(email) && stars.Given? && stars.parsed.Some? && 1 <= stars.parsed.value <= 5)
            ==> r.error == (if listingId !in listings || !listings[listingId].isActive then Error(404, ListingUnavailable)
                            else if !HasActiveEmail(users, email) then Error(400, EmailNotRegistered)
                            else Error(400, AlreadyRated))
    ensures r.Ok? ==> r.value == Rating(id, listingId, email, stars.parsed.value)
  {
    if email == "" || stars.Missing? then Err(Error(400, RatingFieldsRequired))
    else if !IsEmail(email) then Err(Error(400, InvalidEmail))
    else if stars.parsed.None? || stars.parsed.value < 1 || stars.parsed.value > 5 then
      Err(Error(400, RatingOutOfRange))
    else if listingId !in listings || !listings[listingId].isActive then Err(Error(404, ListingUnavailable))
    else if !HasActiveEmail(users, email) then Err(Error(400, EmailNotRegistered))
    else if HasRating(ratings, listingId, email) then Err(Error(400, AlreadyRated))
    else Ok(Rating(id, listingId, email, stars.parsed.value))
  }

  /** addRating: appends exactly one rating, or nothing. */
  method AddRating(db: Store, listingId: nat, email: string, stars: Input<int>) returns (r: Result<Rating>)
    requires db.Valid()
    modifies db`ratings, db`nextRating
    ensures db.Valid()
    ensures r == CheckRating(db.listings, db.users, old(db.ratings), listingId, email, stars, old(db.nextRating))
    ensures r.Ok? ==> db.ratings == old(db.ratings) + [r.value]
    ensures r.Err? ==> db.ratings == old(db.ratings) && db.nextRating == old(db.nextRating)
  {
    r := CheckRating(db.listings, db.users, db.ratings, listingId, email, stars, db.nextRating);
    if r.Ok? {
      RatingKeepsPairsUnique(db.ratings, r.value);
      db.ratings := db.ratings + [r.value];
      db.nextRating := db.nextRating + 1;
    }
  }

  /** Appending a 1..5 rating for a pair that has none keeps the table's two
      invariants. */
  lemma RatingKeepsPairsUnique(ratings: seq<Rating>, x: Rating)
    requires UniqueRatingPairs(ratings) && RatingsInRange(ratings)
    requires !HasRating(ratings, x.listingId, x.email) && 1 <= x.value <= 5
    ensures UniqueRatingPairs(ratings + [x]) && RatingsInRange(ratings + [x])
  {
    var after := ratings + [x];
    forall i, j | 0 <= i < j < |after|
      ensures after[i].listingId != after[j].listingId || after[i].email != after[j].email
    {
      if j == |ratings| {
        assert after[i] == ratings[i];
      }
    }
  }

  /** Once an address has rated a listing, its next attempt on that listing is
      refused, whatever the stars. */
  lemma SecondRatingRefused(listings: map<nat, Listing>, users: map<nat, User>, ratings: seq<Rating>,
                            listingId: nat, email: string, stars: Input<int>, id: nat,
                            stars2: Input<int>, id2: nat)
    requires CheckRating(listings, users, ratings, listingId, email, stars, id).Ok?
    requires stars2.Given? && stars2.parsed.Some? && 1 <= stars2.parsed.value <= 5
    ensures var x := CheckRating(listings, users, ratings, listingId, email, stars, id).value;
            CheckRating(listings, users, ratings + [x], listingId, email, stars2, id2) == Err(Error(400, AlreadyRated))
  {
    var x := CheckRating(listings, users, ratings, listingId, email, stars, id).value;
    assert (ratings + [x])[|ratings|] == x;
  }

  // ---------------------------------------------------------------- getListingRating

  /** The `rating` column of the listing's rows, in table order. */
  function ValuesOf(ratings: seq<Rating>, listingId: nat): (vs: seq<int>)
    ensures |vs| <= |ratings|
    ensures forall v | v in vs :: exists i | 0 <= i < |ratings| :: ratings[i].listingId == listingId && ratings[i].value == v
    ensures RatingsInRange(ratings) ==> forall i | 0 <= i < |vs| :: 1 <= vs[i] <= 5
  {
    if ratings == [] then []
    else
      var last := ratings[|ratings| - 1];
      ValuesOf(ratings[..|ratings| - 1], listingId) + (if last.listingId == listingId then [last.value] else [])
  }

  /** The positions of the listing's rows: what `WHERE listing_id = $1` selects. */
  function RowsOf(ratings: seq<Rating>, listingId: nat): set<nat> {
    set i: nat | i < |ratings| && ratings[i].listingId == listingId
  }

  /** The positions of the listing's rows with `v` stars. */
  function RowsWith(ratings: seq<Rating>, listingId: nat, v: int): set<nat> {
    set i: nat | i < |ratings| && ratings[i].listingId == listingId && ratings[i].value == v
  }

  /** The listing has as many values as it has rows: `COUNT(*)`. */
  lemma {:induction false} ValuesOfLength(ratings: seq<Rating>, listingId: nat)
    ensures |ValuesOf(ratings, listingId)| == |RowsOf(ratings, listingId)|
  {
    if ratings != [] {
      var n := |ratings| - 1;
      var init := ratings[..n];
      ValuesOfLength(init, listingId);
      var extra: set<nat> := if ratings[n].listingId == listingId then {n} else {};
      assert RowsOf(ratings, listingId) == RowsOf(init, listingId) + extra;
      assert n !in RowsOf(init, listingId);
    }
  }

  /** Each star value occurs among the listing's values exactly as often as
      the listing has rows with that value: the `COUNT(*)` of its group. */
  lemma {:induction false} ValuesOfCounts(ratings: seq<Rating>, listingId: nat, v: int)
    ensures multiset(ValuesOf(ratings, listingId))[v] == |RowsWith(ratings, listingId, v)|
  {
    if ratings != [] {
      var n := |ratings| - 1;
      ValuesOfCounts(ratings[..n], listingId, v);
      LastValue(ratings, listingId, v);
      LastRow(ratings, listingId, v);
    }
  }

  /** The last row adds its value, if it is the listing's, to the values of
      the rows before it. */
  lemma LastValue(ratings: seq<Rating>, listingId: nat, v: int)
    requires ratings != []
    ensures var n := |ratings| - 1;
            multiset(ValuesOf(ratings, listingId))[v]
            == multiset(ValuesOf(ratings[..n], listingId))[v]
               + (if ratings[n].listingId == listingId && ratings[n].value == v then 1 else 0)
  {
    var n := |ratings| - 1;
    var tail := if ratings[n].listingId == listingId then [ratings[n].value] else [];
    assert ValuesOf(ratings, listingId) == ValuesOf(ratings[..n], listingId) + tail;
    assert multiset(ValuesOf(ratings, listingId)) == multiset(ValuesOf(ratings[..n], listingId)) + multiset(tail);
  }

  /** The last row adds its position, if it matches, to those of the rows
      before it. */
  lemma LastRow(ratings: seq<Rating>, listingId: nat, v: int)
    requires ratings != []
    ensures var n := |ratings| - 1;
            |RowsWith(ratings, listingId, v)|
            == |RowsWith(ratings[..n], listingId, v)|
               + (if ratings[n].listingId == listingId && ratings[n].value == v then 1 else 0)
  {
    var n := |ratings| - 1;
    var init := ratings[..n];
    var extra: set<nat> := if ratings[n].listingId == listingId && ratings[n].value == v then {n} else {};
    assert RowsWith(ratings, listingId, v) == RowsWith(init, listingId, v) + extra;
    assert n !in RowsWith(init, listingId, v);
  }

  /** Every row of the listing contributes its value. */
  lemma ValuesOfComplete(ratings: seq<Rating>, listingId: nat)
    ensures forall i | 0 <= i < |ratings| && ratings[i].listingId == listingId :: ratings[i].value in ValuesOf(ratings, listingId)
  {
    forall i | 0 <= i < |ratings| && ratings[i].listingId == listingId
      ensures ratings[i].value in ValuesOf(ratings, listingId)
    {
      ValuesOfCounts(ratings, listingId, ratings[i].value);
      assert i in RowsWith(ratings, listingId, ratings[i].value);
    }
  }

  /** How many of `vs` equal `v`: `COUNT(*)` of one rating group. */
  function Count(vs: seq<int>, v: int): (n: nat)
    ensures n == multiset(vs)[v]
    ensures n <= |vs|
    ensures n > 0 <==> v in vs
  {
    if vs == [] then 0
    else
      assert vs == [vs[0]] + vs[1..];
      (if vs[0] == v then 1 else 0) + Count(vs[1..], v)
  }

  /** Each value of `vs` once. */
  function Distinct(vs: seq<int>): (ds: seq<int>)
    ensures forall v :: v in ds <==> v in vs
    ensures forall i, j | 0 <= i < j < |ds| :: ds[i] != ds[j]
  {
    if vs == [] then []
    else
      var rest := Distinct(vs[1..]);
      if vs[0] in rest then rest else [vs[0]] + rest
  }

  /** One row of `SELECT rating, COUNT(*) ... GROUP BY rating`. */
  datatype Group = Group(stars: int, count: nat)

  /** The GROUP BY rows: one per distinct value, with its count. Their order does
      not matter to the handler, which files each under its own key. */
  function Grouped(vs: seq<int>): (gs: seq<Group>)
    ensures forall v :: v in vs <==> exists i | 0 <= i < |gs| :: gs[i].stars == v
    ensures forall i | 0 <= i < |gs| :: gs[i].count == Count(vs, gs[i].stars)
    ensures forall i, j | 0 <= i < j < |gs| :: gs[i].stars != gs[j].stars
  {
    var ds := Distinct(vs);
    var gs := seq(|ds|, i requires 0 <= i < |ds| => Group(ds[i], Count(vs, ds[i])));
    assert forall v :: v in ds ==> exists i | 0 <= i < |gs| :: gs[i].stars == v by {
      forall v | v in ds ensures exists i | 0 <= i < |gs| :: gs[i].stars == v {
        var i :| 0 <= i < |ds| && ds[i] == v;
        assert gs[i].stars == v;
      }
    }
    gs
  }

  /** The `distribution` object: keys 1 to 5 set to 0, then each group's count
      filed under its rating. */
  method Distribution(vs: seq<int>) returns (d: map<int, nat>)
    ensures forall v | 1 <= v <= 5 :: v in d
    ensures forall v | v in d :: (1 <= v <= 5 || v in vs) && d[v] == Count(vs, v)
  {
    d := map[];
    for k := 1 to 6
      invariant forall v | v in d :: 1 <= v < k && d[v] == 0
      invariant forall v | 1 <= v < k :: v in d
    {
      d := d[k := 0];
    }
    var groups := Grouped(vs);
    for i := 0 to |groups|
      invariant forall v | 1 <= v <= 5 :: v in d
      invariant forall v | v in d :: 1 <= v <= 5 || exists j | 0 <= j < i :: groups[j].stars == v
      invariant forall v | v in d ::
                  d[v] == if exists j | 0 <= j < i :: groups[j].stars == v then Count(vs, v) else 0
    {
      d := d[groups[i].stars := groups[i].count];
    }
    forall v | v in d ensures (1 <= v <= 5 || v in vs) && d[v] == Count(vs, v) {
      if !exists j | 0 <= j < |groups| :: groups[j].stars == v {
        assert v !in vs;
      }
    }
  }

  /** MIN(rating) and MAX(rating) of the listing's rows, 0 when there are none
      (the `|| 0` on a NULL aggregate). */
  function MinOrZero(vs: seq<int>): (m: int)
    ensures vs == [] ==> m == 0
    ensures vs != [] ==> m in vs && forall i | 0 <= i < |vs| :: m <= vs[i]
  {
    if vs == [] then 0
    else if |vs| == 1 then vs[0]
    else
      var rest := MinOrZero(vs[1..]);
      if vs[0] <= rest then vs[0] else rest
  }

  function MaxOrZero(vs: seq<int>): (m: int)
    ensures vs == [] ==> m == 0
    ensures vs != [] ==> m in vs && forall i | 0 <= i < |vs| :: vs[i] <= m
  {
    if vs == [] then 0
    else if |vs| == 1 then vs[0]
    else
      var rest := MaxOrZero(vs[1..]);
      if vs[0] >= rest then vs[0] else rest
  }

  /** The figures getListingRating answers with (the rounded average is not
      modelled). */
  datatype RatingStats = RatingStats(listingId: nat, totalRatings: nat, minRating: int, maxRating: int,
                                     distribution: map<int, nat>)

  /** getListingRating: 404 unless the listing exists (active or not); otherwise
      the count, the bounds and the per-star distribution of its ratings. */
  method GetListingRating(db: Store, listingId: nat) returns (r: Result<RatingStats>)
    requires db.Valid()
    ensures r.Err? <==> listingId !in db.listings
    ensures r.Err? ==> r.error == Error(404, ListingNotFound)
    ensures r.Ok? ==>
              var vs := ValuesOf(db.ratings, listingId);
              && r.value.listingId == listingId
              && r.value.totalRatings == |vs|
              && r.value.minRating == MinOrZero(vs) && r.value.maxRating == MaxOrZero(vs)
              && r.value.distribution.Keys == {1, 2, 3, 4, 5}
              && forall v | v in r.value.distribution :: r.value.distribution[v] == Count(vs, v)
    ensures r.Ok? ==>
              && r.value.totalRatings == |RowsOf(db.ratings, listingId)|
              && forall v | v in r.value.distribution :: r.value.distribution[v] == |RowsWith(db.ratings, listingId, v)|
  {
    if listingId !in db.listings {
      return Err(Error(404, ListingNotFound));
    }
    var vs := ValuesOf(db.ratings, listingId);
    var d := Distribution(vs);
    assert d.Keys == {1, 2, 3, 4, 5} by {
      forall v | v in d ensures 1 <= v <= 5 {
        if v in vs {
          var i :| 0 <= i < |vs| && vs[i] == v;
        }
      }
    }
    ValuesOfLength(db.ratings, listingId);
    forall v | v in d ensures d[v] == |RowsWith(db.ratings, listingId, v)| {
      ValuesOfCounts(db.ratings, listingId, v);
    }
    r := Ok(RatingStats(listingId, |vs|, MinOrZero(vs), MaxOrZero(vs), d));
  }

  /** When every value is 1..5 the five counts add up to the number of ratings. */
  lemma {:induction false} CountsSumToTotal(vs: seq<int>)
    requires forall i | 0 <= i < |vs| :: 1 <= vs[i] <= 5
    ensures Count(vs, 1) + Count(vs, 2) + Count(vs, 3) + Count(vs, 4) + Count(vs, 5) == |vs|
  {
    if vs != [] {
      CountsSumToTotal(vs[1..]);
    }
  }

  /** The reported bounds lie in 1..5 for a rated listing, and are both 0 for one
      without ratings. */
  lemma BoundsInRange(ratings: seq<Rating>, listingId: nat)
    requires RatingsInRange(ratings)
    ensures var vs := ValuesOf(ratings, listingId);
            if vs == [] then MinOrZero(vs) == 0 && MaxOrZero(vs) == 0
            else 1 <= MinOrZero(vs) <= MaxOrZero(vs) <= 5
  {
    var vs := ValuesOf(ratings, listingId);
    if vs != [] {
      assert MinOrZero(vs) <= vs[0] <= MaxOrZero(vs);
    }
  }
}
