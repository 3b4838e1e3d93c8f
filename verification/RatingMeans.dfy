/** The average a client reads is the mean of the ratings the server has executed. */
module RatingMeans {
  import opened Basics
  import opened Bookings
  import opened Messages
  import opened Text
  import opened ClientText
  import opened ServerModel
  import opened Effects
  import opened Runs
  import opened Repetition
  import opened Monitors
  import opened Users
  import opened DetailsParser
  import opened ReplyTexts
  import opened Screens
  import opened InitialState

  function Sum(ratings: seq<real>): (sum: real) {
    if ratings == [] then 0.0 else ratings[0] + Sum(ratings[1..])
  }

  /** The request is a rating of facility i. */
  predicate Rates(core: Core, m: RequestMessage, env: Env, i: nat) {
    ValidRating(core, m, env) && FacilityIndex(core.facilities, JavaSplit(m.data.value)[1]) == i
  }

  /** The ratings of facility i that a run executes, in order. */
  function RatingsOf(mach: Machine, checkHistory: bool, arrivals: seq<Arrival>, i: nat): (r: seq<real>)
    requires mach.st.core.Shaped()
    decreases arrivals
  {
    hide Step;
    if arrivals == [] then []
    else
      var a := arrivals[0];
      (if Executes(mach, checkHistory, a) && Rates(mach.st.core, a.m.value, a.env, i)
       then [a.env.parsedRating.value] else [])
      + RatingsOf(Step(mach, checkHistory, a), checkHistory, arrivals[1..], i)
  }

  // ---------- the average ----------

  /** The stored average is the stored total over the stored number. */
  predicate Averaged(r: Rating) {
    if r.count == 0 then r.total == 0.0 && r.average == 0.0 else r.average * (r.count as real) == r.total
  }

  predicate AllAveraged(fs: seq<Facility>) {
    forall i :: 0 <= i < |fs| ==> Averaged(fs[i].rating)
  }

  /** One more rating: one more counted, the total larger by it, the average right again. */
  lemma RatingAdded(r: Rating, rating: real)
    ensures AddRating(r, rating).total == r.total + rating && AddRating(r, rating).count == r.count + 1
    ensures Averaged(AddRating(r, rating))
  {
  }

  lemma ExecuteRates(core: Core, m: RequestMessage, client: Endpoint, env: Env, i: nat)
    requires core.Shaped() && i < |core.facilities| && Execute(core, m, client, env).Executed?
    ensures var fs := Execute(core, m, client, env).core.facilities;
            && |fs| == |core.facilities|
            && fs[i].rating == (if Rates(core, m, env, i)
                                then AddRating(core.facilities[i].rating, env.parsedRating.value)
                                else core.facilities[i].rating)
  {
    hide Execute, Book, Remove, IsAvailable, JavaSplit, AddRating, UserInfo, ParseBooking, ParseUpdate;
    ExecuteApplies(core, m, client, env);
  }

  /** Every execution keeps the averages right. */
  lemma ExecuteAverages(core: Core, a: Arrival)
    requires core.Shaped() && AllAveraged(core.facilities) && a.m.Some?
    requires Execute(core, a.m.value, a.client, a.env).Executed?
    ensures AllAveraged(Execute(core, a.m.value, a.client, a.env).core.facilities)
  {
    hide Execute, AddRating, Averaged, JavaSplit;
    var fs := Execute(core, a.m.value, a.client, a.env).core.facilities;
    SameNumber(core, a);
    forall i | 0 <= i < |fs| ensures Averaged(fs[i].rating) {
      ExecuteRates(core, a.m.value, a.client, a.env, i);
      if Rates(core, a.m.value, a.env, i) {
        RatingAdded(core.facilities[i].rating, a.env.parsedRating.value);
      }
    }
  }

  lemma SameNumber(core: Core, a: Arrival)
    requires core.Shaped() && a.m.Some? && Execute(core, a.m.value, a.client, a.env).Executed?
    ensures |Execute(core, a.m.value, a.client, a.env).core.facilities| == |core.facilities|
  {
    hide Execute, Guarded, Apply, EffectOf;
    ExecuteApplies(core, a.m.value, a.client, a.env);
  }

  /** In every reachable state every average is right. */
  lemma ReachableAverages(mach: Machine, checkHistory: bool, arrivals: seq<Arrival>)
    requires mach.st.core.Shaped() && AllAveraged(mach.st.core.facilities)
    ensures AllAveraged(Run(mach, checkHistory, arrivals).st.core.facilities)
  {
    hide Run, Execute, AllAveraged;
    var inv := (fs: seq<Facility>) => AllAveraged(fs);
    var allowed := (a: Arrival) => true;
    forall core: Core, a: Arrival | core.Shaped() && inv(core.facilities) && a.m.Some? && allowed(a)
                                    && Execute(core, a.m.value, a.client, a.env).Executed?
      ensures inv(Execute(core, a.m.value, a.client, a.env).core.facilities)
    {
      ExecuteAverages(core, a);
    }
    RunKeeps(mach, checkHistory, arrivals, inv, allowed);
  }

  // ---------- runs ----------

  lemma RatesNotStopped(core: Core, m: RequestMessage, client: Endpoint, env: Env, i: nat)
    requires core.Shaped() && Rates(core, m, env, i)
    ensures Execute(core, m, client, env).Executed?
  {
    hide ExecuteUpdate, ExecuteRead, ExecuteWrite, ExecuteDelete, ExecuteMonitor, JavaSplit;
  }

  lemma StepRates(mach: Machine, checkHistory: bool, a: Arrival, i: nat)
    requires mach.st.core.Shaped() && i < |mach.st.core.facilities|
    ensures var core, fs := mach.st.core, Step(mach, checkHistory, a).st.core.facilities;
            && |fs| == |core.facilities|
            && fs[i].name == core.facilities[i].name
            && fs[i].rating == (if Executes(mach, checkHistory, a) && Rates(core, a.m.value, a.env, i)
                                then AddRating(core.facilities[i].rating, a.env.parsedRating.value)
                                else core.facilities[i].rating)
  {
    hide Step, Process, Execute, AddRating, JavaSplit;
    StepCore(mach, checkHistory, a);
    if Executes(mach, checkHistory, a) {
      ProcessFacilities(mach.st.core, a.m.value, a.client, a.env);
      if Rates(mach.st.core, a.m.value, a.env, i) {
        RatesNotStopped(mach.st.core, a.m.value, a.client, a.env, i);
      }
      if Execute(mach.st.core, a.m.value, a.client, a.env).Executed? {
        ExecuteRates(mach.st.core, a.m.value, a.client, a.env, i);
        NamesKept(mach.st.core, a.m.value, a.client, a.env, "");
      }
    }
  }

  /** After any run, under either semantics, total and number are those of the ratings that
      were executed. */
  lemma {:induction false} RunRatings(mach: Machine, checkHistory: bool, arrivals: seq<Arrival>, i: nat)
    requires mach.st.core.Shaped() && i < |mach.st.core.facilities|
    ensures var before, ratings := mach.st.core.facilities[i], RatingsOf(mach, checkHistory, arrivals, i);
            var fs := Run(mach, checkHistory, arrivals).st.core.facilities;
            && |fs| == |mach.st.core.facilities|
            && fs[i].name == before.name
            && fs[i].rating.total == before.rating.total + Sum(ratings)
            && fs[i].rating.count == before.rating.count + |ratings|
    decreases arrivals
  {
    hide Step, AddRating, JavaSplit, Recorded;
    if arrivals != [] {
      var a := arrivals[0];
      StepRates(mach, checkHistory, a, i);
      RunRatings(Step(mach, checkHistory, a), checkHistory, arrivals[1..], i);
      if Executes(mach, checkHistory, a) && Rates(mach.st.core, a.m.value, a.env, i) {
        RatingAdded(mach.st.core.facilities[i].rating, a.env.parsedRating.value);
        SumFirst(a.env.parsedRating.value, RatingsOf(Step(mach, checkHistory, a), checkHistory, arrivals[1..], i));
      } else {
        assert RatingsOf(mach, checkHistory, arrivals, i)
            == RatingsOf(Step(mach, checkHistory, a), checkHistory, arrivals[1..], i);
      }
    }
  }

  lemma SumFirst(rating: real, rest: seq<real>)
    ensures Sum([rating] + rest) == rating + Sum(rest)
  {
    assert ([rating] + rest)[1..] == rest;
  }

  // ---------- what the client reads ----------

  /** Zero when there are none. */
  function Mean(ratings: seq<real>): (mean: real) {
    if ratings == [] then 0.0 else Sum(ratings) / (|ratings| as real)
  }

  predicate Unrated(fs: seq<Facility>) { forall f <- fs :: f.rating == Rating(0.0, 0, 0.0) }

  lemma AverageIsMean(core: Core, checkHistory: bool, arrivals: seq<Arrival>, i: nat)
    requires core.Shaped() && Unrated(core.facilities) && i < |core.facilities|
    ensures var start := Machine(ServerState(core, []), true);
            var ratings, fs := RatingsOf(start, checkHistory, arrivals, i),
                               Run(start, checkHistory, arrivals).st.core.facilities;
            |fs| == |core.facilities| && fs[i].rating == Rating(Sum(ratings), |ratings|, Mean(ratings))
  {
    hide Run, RatingsOf, Sum;
    var start := Machine(ServerState(core, []), true);
    assert core.facilities[i] in core.facilities;
    RunRatings(start, checkHistory, arrivals, i);
    assert AllAveraged(core.facilities);
    ReachableAverages(start, checkHistory, arrivals);
    var r := Run(start, checkHistory, arrivals).st.core.facilities[i].rating;
    assert Averaged(r);
    var ratings := RatingsOf(start, checkHistory, arrivals, i);
    if ratings != [] {
      Quotient(r.average, |ratings|, Sum(ratings));
    }
  }

  lemma Quotient(average: real, n: nat, total: real)
    requires n > 0 && average * (n as real) == total
    ensures average == total / (n as real)
  {
  }

  /** Asking for the rating of a facility after any run shows the mean of the ratings of it
      that were executed, to one decimal. */
  lemma RatingScreen(core: Core, checkHistory: bool, arrivals: seq<Arrival>, i: nat,
                     requestID: int32, client: Endpoint, env: Env)
    requires core.Shaped() && Unrated(core.facilities) && i < |core.facilities|
    requires FacilityIndex(core.facilities, core.facilities[i].name) == i
    requires var name := core.facilities[i].name; name != "" && ',' !in name && '\n' !in name
    ensures var start, name := Machine(ServerState(core, []), true), core.facilities[i].name;
            var here := Run(start, checkHistory, arrivals).st.core;
            var r := Execute(here, RequestMessage(OpCode(READ), requestID, Some(RatingQuery(name))), client, env);
            r.Executed? && r.core == here
            && RatingShown(r.response.data.value)
               == ["Facility Rating", "Facility: " + name,
                   "Rating: " + Tenths(Mean(RatingsOf(start, checkHistory, arrivals, i)))]
  {
    hide Run, RatingsOf, Mean, Execute, Tenths, RatingShown, FacilityIndex;
    var start, name := Machine(ServerState(core, []), true), core.facilities[i].name;
    var here := Run(start, checkHistory, arrivals).st.core;
    AverageIsMean(core, checkHistory, arrivals, i);
    forall j: nat | j < |core.facilities|
      ensures j < |here.facilities| && here.facilities[j].name == core.facilities[j].name
    {
      RunRatings(start, checkHistory, arrivals, j);
    }
    IndexStable(core.facilities, here.facilities, name);
    RatingAnswered(here, name, requestID, client, env);
    TenthsClean(here.facilities[i].rating.average);
    RatingIsShown(name, Tenths(here.facilities[i].rating.average));
  }

  lemma RatingAnswered(core: Core, name: string, requestID: int32, client: Endpoint, env: Env)
    requires core.Shaped() && name != "" && ',' !in name
    ensures var m := RequestMessage(OpCode(READ), requestID, Some(RatingQuery(name)));
            Execute(core, m, client, env) == Executed(core, Reply(READ, m, RatingAnswer(core, name)), None)
  {
    hide JavaSplit, AvailabilityText, WantedDays, BookingAnswer, FacilityNames, RatingAnswer, ErrorText, RatingQuery;
    RatingSplits(name);
  }

  lemma RatingSplits(name: string)
    requires ',' !in name && name != ""
    ensures JavaSplit(RatingQuery(name)) == ["rating", name]
  {
    hide JavaSplit;
    SplitTwo("rating", name);
    assert "rating" + "," + name == "rating," + name;
  }

  /** The rating of a facility nobody knows. */
  lemma UnknownRatingScreen(core: Core, name: string, requestID: int32, client: Endpoint, env: Env)
    requires core.Shaped() && name != "" && ',' !in name && !Known(core.facilities, name)
    ensures var r := Execute(core, RequestMessage(OpCode(READ), requestID, Some(RatingQuery(name))), client, env);
            r.Executed? && r.core == core
            && RatingShown(r.response.data.value) == ["Error", "Facility not found"]
  {
    hide Execute, RatingShown, ErrorText, RatingQuery;
    RatingAnswered(core, name, requestID, client, env);
    NotFoundOnScreen();
  }

  /** The program's first state has no ratings. */
  lemma InitiallyUnrated()
    ensures INITIAL.Shaped() && Unrated(INITIAL.facilities) && AllAveraged(INITIAL.facilities)
  {
    hide Opened;
  }

  // ---------- rating ----------

  /** A rating that is a number, for a known facility, is added to that facility's ratings,
      nothing else changes, and the client shows it. */
  lemma RateScreen(core: Core, name: string, text: string, requestID: int32, client: Endpoint, env: Env)
    requires core.Shaped() && ',' !in name && '\n' !in name && ',' !in text && text != ""
    requires Known(core.facilities, name) && env.parsedRating.Some? && '\n' !in client.address
    ensures var i, rating := FacilityIndex(core.facilities, name), env.parsedRating.value;
            var f := core.facilities[i];
            var m := RequestMessage(OpCode(UPDATE), requestID, Some(RateData(name, text)));
            var r := Execute(core, m, client, env);
            && r.Executed?
            && r.core == core.(facilities := core.facilities[i := f.(rating := AddRating(f.rating, rating))])
            && RateShown(r.response.data.value)
               == ["Rating Added", "User: " + UserInfo(client), "Facility: " + name, "Rating: " + Tenths(rating)]
  {
    hide JavaSplit, ParseUpdate, UpdateBooking, Tenths, RateShown, RatedText, UserInfo, AddRating, ErrorText, RateData;
    RateSplits(name, text);
    UserOnOneLine(client);
    RateIsShown(UserInfo(client), name, env.parsedRating.value);
  }

  lemma RateSplits(name: string, text: string)
    requires ',' !in name && ',' !in text && text != ""
    ensures JavaSplit(RateData(name, text)) == ["rating", name, text]
  {
    hide JavaSplit;
    SplitThree("rating", name, text);
    assert "rating" + "," + name + "," + text == "rating," + name + "," + text;
  }

  // ---------- one decimal ----------

  /** The printed number has one decimal and is within half a tenth of the rating; a rating in
      the middle is rounded away from zero. */
  lemma TenthsRounds(r: real)
    ensures exists n: nat ::
              && Tenths(r) == (if r < 0.0 then "-" else "") + PrintInt(n / 10) + "." + [Digit(n % 10)]
              && (if r < 0.0 then n as real - 0.5 <= -10.0 * r < n as real + 0.5
                  else n as real - 0.5 <= 10.0 * r < n as real + 0.5)
  {
    var size := if r < 0.0 then -r else r;
    var n: nat := (size * 10.0 + 0.5).Floor;
    assert PrintInt(n % 10) == [Digit(n % 10)];
    Dotted(if r < 0.0 then "-" else "", PrintInt(n / 10), [Digit(n % 10)]);
    assert Magnitude(size) == PrintInt(n / 10) + "." + [Digit(n % 10)];
    assert Tenths(r) == (if r < 0.0 then "-" else "") + PrintInt(n / 10) + "." + [Digit(n % 10)];
  }

  lemma Dotted(sign: string, whole: string, tenth: string)
    ensures sign + (whole + "." + tenth) == sign + whole + "." + tenth
  {
  }

  lemma TenthsOfThree()
    ensures Tenths(3.0) == "3.0" && Tenths(2.25) == "2.3" && Tenths(-0.5) == "-0.5"
  {
    assert PrintNat(3) == "3" && PrintNat(0) == "0" && PrintNat(2) == "2" && PrintNat(5) == "5";
    assert (3.0 * 10.0 + 0.5).Floor == 30 && (2.25 * 10.0 + 0.5).Floor == 23 && (0.5 * 10.0 + 0.5).Floor == 5;
  }
}
