/** The request handler: the configured builders, the two-day window, one
    entry per builder with the sum of both days, then the ranking, the cut
    to the first ten and their total; an exception anywhere becomes a
    server error. */
module Handler {
  import opened Wrappers
  import opened Identity
  import opened Calendar
  import opened Fees
  import opened Ranking

  /** The note sent when no builder is configured. */
  const NoBuildersNote: string :=
    "No builders configured. Pass ?builders=0xaddr:Label,0xaddr2:Label or set BUILDER_ADDRESSES env var (addresses must be lowercase)."

  /** The JSON bodies the handler answers with: the fee report (with a
      note only when nothing is configured), or the 500 error with the
      message of the exception. */
  datatype Response =
    | Report(total24h: real, perBuilder: seq<Summary>, note: Option<string>)
    | ServerError(detail: string)

  /** `b.label || b.addr.slice(0, 6)`: a non-empty given label, otherwise
      the first six characters of the address (fewer when it is shorter). */
  function DisplayLabel(b: BuilderCfg): (l: string)
    ensures b.givenLabel.Some? && b.givenLabel.value != "" ==> l == b.givenLabel.value
    ensures !(b.givenLabel.Some? && b.givenLabel.value != "") ==>
      |l| == (if |b.addr| < 6 then |b.addr| else 6) && l == b.addr[..|l|]
    ensures IsCanonicalAddress(b.addr) ==> l != ""
  {
    if b.givenLabel.Some? && b.givenLabel.value != "" then b.givenLabel.value
    else if |b.addr| < 6 then b.addr
    else b.addr[..6]
  }

  /** One builder's entry: both days are fetched together, and the fee is
      the sum of the two day sums. If a fetch throws, the whole handler
      fails with its message; today's is reported when both throw. */
  function BuilderEntry(b: BuilderCfg, today: string, yest: string, ext: Externals): (r: Result<Summary, string>)
    ensures r.Failure? <==> DayFee(b.addr, today, ext).Failure? || DayFee(b.addr, yest, ext).Failure?
    ensures r.Success? ==>
      && r.value.builder == b.addr
      && r.value.displayLabel == DisplayLabel(b)
      && r.value.fee24h == DayFee(b.addr, today, ext).value + DayFee(b.addr, yest, ext).value
  {
    EntryOf(b, DayFee(b.addr, today, ext), DayFee(b.addr, yest, ext))
  }

  /** The entry made of the two day sums, or the first of their failures. */
  function EntryOf(b: BuilderCfg, t0: Result<real, string>, t1: Result<real, string>): Result<Summary, string>
  {
    if t0.Failure? then Failure(t0.error)
    else if t1.Failure? then Failure(t1.error)
    else Success(Summary(b.addr, DisplayLabel(b), t0.value + t1.value))
  }

  /** The `perBuilder` list the loop builds, one entry per builder in order,
      or the first failure, which ends the loop. */
  function Summaries(bs: seq<BuilderCfg>, today: string, yest: string, ext: Externals): (r: Result<seq<Summary>, string>)
    ensures r.Success? ==> |r.value| == |bs|
  {
    if bs == [] then Success([])
    else
      match Summaries(bs[..|bs| - 1], today, yest, ext)
      case Failure(e) => Failure(e)
      case Success(done) =>
        match BuilderEntry(bs[|bs| - 1], today, yest, ext)
        case Failure(e) => Failure(e)
        case Success(entry) => Success(done + [entry])
  }

  /** The ranked report over the loop's entries: sorted by fee, highest
      first, cut to the first ten, with the total of what is kept. */
  function Ranked(entries: seq<Summary>): (r: Response)
    ensures r.Report? && r.note.None?
    ensures |r.perBuilder| == if |entries| < TopN then |entries| else TopN
    ensures r.total24h == TotalFee(r.perBuilder)
  {
    var top := Top(SortDesc(entries));
    Report(TotalFee(top), top, None)
  }

  /** What the handler answers for the `builders` query parameter, the
      `BUILDER_ADDRESSES` variable and the current UTC date. */
  function Expected(query: Option<string>, env: Option<string>, now: Date, ext: Externals): (r: Response)
    ensures ConfiguredBuilders(query, env) == [] ==> r == Report(0.0, [], Some(NoBuildersNote))
    ensures r.ServerError? ==> ConfiguredBuilders(query, env) != []
    ensures r.Report? && ConfiguredBuilders(query, env) != [] ==> r.note.None? && |r.perBuilder| <= TopN
  {
    var builders := ConfiguredBuilders(query, env);
    if builders == [] then Report(0.0, [], Some(NoBuildersNote))
    else
      var window := ReportWindow(now);
      match Summaries(builders, window[0], window[1], ext)
      case Failure(e) => ServerError(e)
      case Success(entries) => Ranked(entries)
  }

  /** The handler. */
  method Handle(query: Option<string>, env: Option<string>, now: Date, ext: Externals) returns (resp: Response)
    ensures resp == Expected(query, env, now, ext)
  {
    var builders := ConfiguredBuilders(query, env);
    if |builders| == 0 {
      return Report(0.0, [], Some(NoBuildersNote));
    }
    var today := Yyyymmdd(now);
    var yest := Yyyymmdd(Yesterday(now));
    var collected := CollectEntries(builders, today, yest, ext);
    match collected {
      case Failure(e) =>
        resp := ServerError(e);
      case Success(perBuilder) =>
        resp := RankEntries(perBuilder);
    }
  }

  /** The loop over the builders, awaiting both day sums of each in turn. */
  method CollectEntries(builders: seq<BuilderCfg>, today: string, yest: string, ext: Externals)
    returns (r: Result<seq<Summary>, string>)
    ensures r == Summaries(builders, today, yest, ext)
  {
    var perBuilder: seq<Summary> := [];
    for i := 0 to |builders|
      invariant Summaries(builders[..i], today, yest, ext) == Success(perBuilder)
    {
      var entry := EntryFor(builders[i], today, yest, ext);
      SummariesStep(builders, i, today, yest, ext);
      if entry.Failure? {
        FailureStays(builders, i + 1, today, yest, ext);
        return Failure(entry.error);
      }
      perBuilder := perBuilder + [entry.value];
    }
    assert builders[..|builders|] == builders;
    return Success(perBuilder);
  }

  /** One turn of the loop: both day sums of one builder, then its entry. */
  method EntryFor(b: BuilderCfg, today: string, yest: string, ext: Externals) returns (r: Result<Summary, string>)
    ensures r == BuilderEntry(b, today, yest, ext)
  {
    var t0 := SumForDate(b.addr, today, ext);
    var t1 := SumForDate(b.addr, yest, ext);
    return EntryOf(b, t0, t1);
  }

  /** The list of the first `i + 1` builders extends that of the first `i`
      by the entry of builder `i`, or stops at its failure. */
  lemma SummariesStep(bs: seq<BuilderCfg>, i: nat, today: string, yest: string, ext: Externals)
    requires i < |bs|
    ensures var prev, e := Summaries(bs[..i], today, yest, ext), BuilderEntry(bs[i], today, yest, ext);
      prev.Success? ==>
        Summaries(bs[..i + 1], today, yest, ext) == (if e.Failure? then Failure(e.error) else Success(prev.value + [e.value]))
  {
    assert bs[..i + 1][..i] == bs[..i];
  }

  /** Sorting `perBuilder` in place, keeping the first ten and adding up
      their fees from the first on. */
  method RankEntries(perBuilder: seq<Summary>) returns (resp: Response)
    ensures resp == Ranked(perBuilder)
  {
    var ranked := new Summary[|perBuilder|](k requires 0 <= k < |perBuilder| => perBuilder[k]);
    assert ranked[..] == perBuilder;
    SortInPlace(ranked);
    var top10 := Top(ranked[..]);
    var total24h := 0.0;
    for k := 0 to |top10|
      invariant total24h == TotalFee(top10[..k])
    {
      assert top10[..k + 1][..k] == top10[..k];
      total24h := total24h + top10[k].fee24h;
    }
    assert top10[..|top10|] == top10;
    return Report(total24h, top10, None);
  }

  /** A failure in the first `n` builders is the failure of the whole list. */
  lemma {:induction false} FailureStays(bs: seq<BuilderCfg>, n: nat, today: string, yest: string, ext: Externals)
    requires n <= |bs|
    requires Summaries(bs[..n], today, yest, ext).Failure?
    ensures Summaries(bs, today, yest, ext) == Summaries(bs[..n], today, yest, ext)
    decreases |bs| - n
  {
    if n < |bs| {
      assert bs[..n + 1][..n] == bs[..n];
      FailureStays(bs, n + 1, today, yest, ext);
    } else {
      assert bs[..n] == bs;
    }
  }

  /** The fetch for one builder and day throws. */
  predicate FetchThrows(b: BuilderCfg, day: string, ext: Externals)
  {
    ext.fetch(ReportUrl(b.addr, day)).Throws?
  }

  /** The loop succeeds exactly when no fetch throws, and then it has one
      entry per builder, in order, labelled and summed over both days. */
  lemma {:induction false} SummariesSucceed(bs: seq<BuilderCfg>, today: string, yest: string, ext: Externals)
    ensures var r := Summaries(bs, today, yest, ext);
      r.Success? <==> forall i :: 0 <= i < |bs| ==> !FetchThrows(bs[i], today, ext) && !FetchThrows(bs[i], yest, ext)
    ensures var r := Summaries(bs, today, yest, ext);
      r.Success? ==>
        && |r.value| == |bs|
        && forall i :: 0 <= i < |bs| ==>
          && r.value[i].builder == bs[i].addr
          && r.value[i].displayLabel == DisplayLabel(bs[i])
          && r.value[i].fee24h == DayFee(bs[i].addr, today, ext).value + DayFee(bs[i].addr, yest, ext).value
  {
    if bs != [] {
      var init, last := bs[..|bs| - 1], bs[|bs| - 1];
      SummariesSucceed(init, today, yest, ext);
      assert forall i :: 0 <= i < |init| ==> init[i] == bs[i];
      var r := Summaries(bs, today, yest, ext);
      if r.Success? {
        assert r.value == Summaries(init, today, yest, ext).value + [BuilderEntry(last, today, yest, ext).value];
      }
    }
  }

  /** When the loop fails, its message is that of the first builder with a
      throwing fetch: today's report if that throws, otherwise yesterday's. */
  lemma {:induction false} SummariesFailFirst(bs: seq<BuilderCfg>, today: string, yest: string, ext: Externals)
    requires Summaries(bs, today, yest, ext).Failure?
    ensures exists i :: (0 <= i < |bs|
      && (forall j :: 0 <= j < i ==> !FetchThrows(bs[j], today, ext) && !FetchThrows(bs[j], yest, ext))
      && (FetchThrows(bs[i], today, ext) || FetchThrows(bs[i], yest, ext))
      && Summaries(bs, today, yest, ext).error ==
        if FetchThrows(bs[i], today, ext) then ext.fetch(ReportUrl(bs[i].addr, today)).message
        else ext.fetch(ReportUrl(bs[i].addr, yest)).message)
  {
    var init, last := bs[..|bs| - 1], bs[|bs| - 1];
    assert forall i :: 0 <= i < |init| ==> init[i] == bs[i];
    if Summaries(init, today, yest, ext).Failure? {
      SummariesFailFirst(init, today, yest, ext);
      var i :| 0 <= i < |init|
        && (forall j :: 0 <= j < i ==> !FetchThrows(init[j], today, ext) && !FetchThrows(init[j], yest, ext))
        && (FetchThrows(init[i], today, ext) || FetchThrows(init[i], yest, ext))
        && Summaries(init, today, yest, ext).error ==
          if FetchThrows(init[i], today, ext) then ext.fetch(ReportUrl(init[i].addr, today)).message
          else ext.fetch(ReportUrl(init[i].addr, yest)).message;
      assert init[i] == bs[i];
    } else {
      SummariesSucceed(init, today, yest, ext);
      var i := |bs| - 1;
      assert bs[i] == last;
    }
  }

  /** The note report comes back exactly when neither the query nor the
      environment names a usable builder. */
  lemma UnconfiguredReport(query: Option<string>, env: Option<string>, now: Date, ext: Externals)
    ensures (Expected(query, env, now, ext) == Report(0.0, [], Some(NoBuildersNote)))
        <==> (ParseBuildersParam(query) == [] && ParseBuildersParam(env) == [])
  {
    var builders := ConfiguredBuilders(query, env);
    if builders != [] {
      var window := ReportWindow(now);
      match Summaries(builders, window[0], window[1], ext)
      case Failure(e) =>
      case Success(entries) =>
        assert Expected(query, env, now, ext).note.None?;
    }
  }

  /** A server error comes back exactly when some builder is configured
      and the fetch of one of its two reports throws. */
  lemma ServerErrorWhenFetchThrows(query: Option<string>, env: Option<string>, now: Date, ext: Externals)
    ensures var builders, window := ConfiguredBuilders(query, env), ReportWindow(now);
      Expected(query, env, now, ext).ServerError? <==>
        exists i :: 0 <= i < |builders| &&
          (FetchThrows(builders[i], window[0], ext) || FetchThrows(builders[i], window[1], ext))
  {
    var builders, window := ConfiguredBuilders(query, env), ReportWindow(now);
    SummariesSucceed(builders, window[0], window[1], ext);
  }

  /** What the ranked report holds: at most ten entries, sorted by fee,
      each one of the loop's entries; no entry left out has a higher fee
      than one kept; with ten builders or fewer nothing is left out, the
      total is the sum over every builder and entries of equal fee keep
      their configured order. */
  lemma RankedReport(entries: seq<Summary>)
    ensures var r := Ranked(entries);
      && r.Report? && r.note.None?
      && |r.perBuilder| == (if |entries| < TopN then |entries| else TopN)
      && SortedDesc(r.perBuilder)
      && multiset(r.perBuilder) <= multiset(entries)
      && (forall x, y :: x in r.perBuilder && y in multiset(entries) - multiset(r.perBuilder) ==> x.fee24h >= y.fee24h)
    ensures |entries| <= TopN ==>
      var r := Ranked(entries);
      && multiset(r.perBuilder) == multiset(entries)
      && r.total24h == TotalFee(entries)
      && forall v :: WithFee(r.perBuilder, v) == WithFee(entries, v)
  {
    var sorted := SortDesc(entries);
    var kept := Top(sorted);
    var dropped := sorted[|kept|..];
    TopKeepsHighest(entries);
    SortDescPermutes(entries);
    assert multiset(sorted) == multiset(kept) + multiset(dropped);
    forall x, y | x in kept && y in multiset(entries) - multiset(kept)
      ensures x.fee24h >= y.fee24h
    {
      assert y in dropped;
      var i :| 0 <= i < |kept| && kept[i] == x;
      var j :| 0 <= j < |dropped| && dropped[j] == y;
      assert sorted[|kept| + j] == y;
    }
    if |entries| <= TopN {
      assert kept == sorted;
      SortDescTotal(entries);
      forall v {
        SortDescStable(entries, v);
      }
    }
  }
}
