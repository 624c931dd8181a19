/** The report logic of packages/cli/src/helpers/create-consumable-html.ts
    around the phase buckets: server and plot titles, the significance rule,
    one report section per control phase, the cumulative chart's phase list,
    and the bodies of the `toCamel`, `isFaster` and `abs` template helpers. */
module ConsumableHtml {
  import opened Options
  import JsObject
  import PhaseBuckets

  // ---------------------------------------------------------------------------
  // Titles.

  /** One configured server; only its `name` reaches the report. */
  datatype ServerConfig = ServerConfig(name: string)

  /** The part of the benchmark configuration the titles read; an absent
      (`undefined`) attribute is `None`. */
  datatype TitleConfig = TitleConfig(servers: Option<seq<ServerConfig>>, plotTitle: Option<string>)

  /** The `reportTitles` object. */
  datatype ReportTitles = ReportTitles(servers: seq<ServerConfig>, plotTitle: string)

  const DefaultServers: seq<ServerConfig> := [ServerConfig("Control"), ServerConfig("Experiment")]

  /** The label prefixed to the server at position `idx`. */
  function ServerPrefix(idx: nat): string {
    if idx == 0 then "Control: " else "Experiment: "
  }

  /** A supplied plot title replaces the default only when it is truthy,
      i.e. present and not the empty string. */
  predicate OverridesPlotTitle(plotTitle: Option<string>) {
    plotTitle.Some? && plotTitle.value != ""
  }

  /** What `resolveTitles` promises: without `servers` the two default names;
      with them, as many servers, each name prefixed by its role; and the plot
      title overridden only by a truthy one. */
  ghost predicate TitlesResolved(config: TitleConfig, defaultPlotTitle: string, titles: ReportTitles) {
    && (config.servers.None? ==> titles.servers == DefaultServers)
    && (config.servers.Some? ==>
          && |titles.servers| == |config.servers.value|
          && forall idx :: 0 <= idx < |titles.servers| ==>
               titles.servers[idx].name == ServerPrefix(idx) + config.servers.value[idx].name)
    && titles.plotTitle == if OverridesPlotTitle(config.plotTitle) then config.plotTitle.value else defaultPlotTitle
  }

  /** `resolveTitles(tbConfig)`; `defaultPlotTitle` is `defaultFlagArgs.plotTitle`. */
  method ResolveTitles(config: TitleConfig, defaultPlotTitle: string) returns (titles: ReportTitles)
    ensures TitlesResolved(config, defaultPlotTitle, titles)
  {
    titles := ReportTitles(DefaultServers, defaultPlotTitle);
    if config.servers.Some? {
      var servers := config.servers.value;
      titles := titles.(servers := servers);
      titles := titles.(servers := seq(|servers|, idx requires 0 <= idx < |servers| =>
        if idx == 0 then ServerConfig("Control: " + servers[idx].name)
        else ServerConfig("Experiment: " + servers[idx].name)));
    }
    if config.plotTitle.Some? && config.plotTitle.value != "" {
      titles := titles.(plotTitle := config.plotTitle.value);
    }
  }

  /** The resolved titles are determined by the configuration. */
  lemma TitlesResolvedUnique(config: TitleConfig, defaultPlotTitle: string, t1: ReportTitles, t2: ReportTitles)
    requires TitlesResolved(config, defaultPlotTitle, t1) && TitlesResolved(config, defaultPlotTitle, t2)
    ensures t1 == t2
  {
    if config.servers.Some? {
      assert forall idx :: 0 <= idx < |t1.servers| ==> t1.servers[idx] == t2.servers[idx];
    }
  }

  /** The configured names can be read back: each resolved name is its role's
      prefix followed by the configured name, and an empty list stays empty. */
  lemma ResolvedNamesKeepConfiguredNames(config: TitleConfig, defaultPlotTitle: string, titles: ReportTitles, idx: nat)
    requires TitlesResolved(config, defaultPlotTitle, titles)
    requires config.servers.Some? && idx < |config.servers.value|
    ensures idx < |titles.servers|
    ensures var name := titles.servers[idx].name;
      && |ServerPrefix(idx)| <= |name|
      && name[..|ServerPrefix(idx)|] == ServerPrefix(idx)
      && name[|ServerPrefix(idx)|..] == config.servers.value[idx].name
  {
    var name := titles.servers[idx].name;
    assert name == ServerPrefix(idx) + config.servers.value[idx].name;
  }

  /** An empty server list stays empty; without `servers` the two defaults
      appear in order. */
  lemma ResolvedServerCount(config: TitleConfig, defaultPlotTitle: string, titles: ReportTitles)
    requires TitlesResolved(config, defaultPlotTitle, titles)
    ensures config.servers == Some([]) ==> titles.servers == []
    ensures config.servers.None? ==>
      |titles.servers| == 2 && titles.servers[0].name == "Control" && titles.servers[1].name == "Experiment"
    ensures config.plotTitle == Some("") ==> titles.plotTitle == defaultPlotTitle
  {
  }

  // ---------------------------------------------------------------------------
  // Significance.

  /** The `isNotSignificant` rule on a confidence interval `[ciMin, ciMax]`:
      it straddles zero (either way round), or is exactly `[0, 0]`. */
  predicate IsNotSignificant(ciMin: real, ciMax: real) {
    || (ciMin < 0.0 && 0.0 < ciMax)
    || (ciMin > 0.0 && 0.0 > ciMax)
    || (ciMin == 0.0 && ciMax == 0.0)
  }

  /** Not significant exactly when the bounds have strictly opposite signs or
      are both zero; so significant exactly when the bounds lie on the same side
      of zero or only one of them is zero. */
  lemma NotSignificantIff(ciMin: real, ciMax: real)
    ensures IsNotSignificant(ciMin, ciMax) <==> ciMin * ciMax < 0.0 || (ciMin == 0.0 && ciMax == 0.0)
    ensures !IsNotSignificant(ciMin, ciMax) <==>
      ciMin * ciMax > 0.0 || (ciMin == 0.0) != (ciMax == 0.0)
  {
    if ciMin < 0.0 && ciMax < 0.0 {
      assert ciMin * ciMax > 0.0;
    } else if ciMin > 0.0 && ciMax > 0.0 {
      assert ciMin * ciMax > 0.0;
    } else if ciMin < 0.0 && ciMax > 0.0 {
      assert ciMin * ciMax < 0.0;
    } else if ciMin > 0.0 && ciMax < 0.0 {
      assert ciMin * ciMax < 0.0;
    }
  }

  /** Swapping control and experiment turns `[min, max]` into `[-max, -min]`;
      the verdict does not change. */
  lemma SignificanceSymmetric(ciMin: real, ciMax: real)
    ensures IsNotSignificant(ciMin, ciMax) == IsNotSignificant(-ciMax, -ciMin)
  {
  }

  /** An interval with both bounds on one side of zero is significant;
      so are `[0, 5]` and `[-5, 0]`; `[-1, 1]` and `[0, 0]` are not. */
  lemma SignificanceExamples(ciMin: real, ciMax: real)
    ensures (0.0 < ciMin && 0.0 < ciMax) || (ciMin < 0.0 && ciMax < 0.0) ==> !IsNotSignificant(ciMin, ciMax)
    ensures !IsNotSignificant(0.0, 5.0) && !IsNotSignificant(-5.0, 0.0)
    ensures IsNotSignificant(-1.0, 1.0) && IsNotSignificant(0.0, 0.0)
  {
  }

  // ---------------------------------------------------------------------------
  // Sections.

  /** What `new Stats({ control, experiment })` yields that the report reads. */
  datatype StatsResult = StatsResult(ciMin: real, ciMax: real, estimator: real)

  /** One `HTMLSectionRenderData` record, with the sample lists kept as lists
      (their `JSON.stringify` text is not modelled). */
  datatype Section = Section(
    phase: string,
    identifierHash: string,
    isSignificant: bool,
    controlSamples: seq<nat>,
    experimentSamples: seq<nat>,
    ciMin: real,
    ciMax: real,
    hlDiff: real,
    servers: seq<ServerConfig>,
    shouldPageBreak: bool)

  /** `values.map(val => convertMicrosecondsToMS(val))` */
  function ToMilliseconds(values: seq<nat>, toMs: nat -> nat): (r: seq<nat>)
    ensures |r| == |values|
    ensures forall j :: 0 <= j < |values| ==> r[j] == toMs(values[j])
  {
    seq(|values|, j requires 0 <= j < |values| => toMs(values[j]))
  }

  /** The section of `phase`: named and keyed by the phase, the statistics of
      its two sample lists, significant exactly when the interval is not ruled
      insignificant, the samples converted, and a page break only before
      `duration`. */
  ghost predicate IsSection(s: Section, phase: string, controlValues: seq<nat>, experimentValues: seq<nat>,
                            stats: (seq<nat>, seq<nat>) -> StatsResult, toMs: nat -> nat, servers: seq<ServerConfig>)
  {
    var st := stats(controlValues, experimentValues);
    && s.phase == phase
    && s.identifierHash == phase
    && s.ciMin == st.ciMin && s.ciMax == st.ciMax && s.hlDiff == st.estimator
    && (s.isSignificant <==> !IsNotSignificant(st.ciMin, st.ciMax))
    && s.controlSamples == ToMilliseconds(controlValues, toMs)
    && s.experimentSamples == ToMilliseconds(experimentValues, toMs)
    && s.servers == servers
    && (s.shouldPageBreak <==> phase == PhaseBuckets.PageLoadTime)
  }

  /** The sections of `createConsumeableHTML`: one per control key, in
      `Object.keys` order. Reading `.map` of the missing experiment list of
      some control phase throws. */
  method AssembleSections(control: PhaseBuckets.Buckets, experiment: PhaseBuckets.Buckets,
                          stats: (seq<nat>, seq<nat>) -> StatsResult, toMs: nat -> nat,
                          servers: seq<ServerConfig>)
    returns (r: Result<seq<Section>, JsObject.TypeError>)
    requires forall k :: k in control.keys ==> k in control.lists
    ensures r.Ok? <==> forall k :: k in control.keys ==> k in experiment.lists
    ensures r.Err? ==> r.error == JsObject.MapOnUndefined
    ensures r.Ok? ==>
      var phases := JsObject.ObjectKeys(control.keys);
      && |r.value| == |phases|
      && forall i :: 0 <= i < |phases| ==>
           && phases[i] in control.lists && phases[i] in experiment.lists
           && IsSection(r.value[i], phases[i], control.lists[phases[i]], experiment.lists[phases[i]],
                        stats, toMs, servers)
  {
    var phases := JsObject.ObjectKeys(control.keys);
    r := SectionsFor(phases, control.lists, experiment.lists, stats, toMs, servers);
  }

  /** The `phases.forEach(phase => { ... sectionFormattedData.push(...) })` loop. */
  method SectionsFor(phases: seq<string>, control: map<string, seq<nat>>, experiment: map<string, seq<nat>>,
                     stats: (seq<nat>, seq<nat>) -> StatsResult, toMs: nat -> nat,
                     servers: seq<ServerConfig>)
    returns (r: Result<seq<Section>, JsObject.TypeError>)
    requires forall k :: k in phases ==> k in control
    ensures r.Ok? <==> forall k :: k in phases ==> k in experiment
    ensures r.Err? ==> r.error == JsObject.MapOnUndefined
    ensures r.Ok? ==>
      && |r.value| == |phases|
      && forall i :: 0 <= i < |phases| ==>
           && phases[i] in control && phases[i] in experiment
           && IsSection(r.value[i], phases[i], control[phases[i]], experiment[phases[i]], stats, toMs, servers)
  {
    var sections: seq<Section> := [];
    var n := 0;
    while n < |phases|
      invariant 0 <= n <= |phases|
      invariant |sections| == n
      invariant forall i :: 0 <= i < n ==>
        && phases[i] in control && phases[i] in experiment
        && IsSection(sections[i], phases[i], control[phases[i]], experiment[phases[i]], stats, toMs, servers)
    {
      var phase := phases[n];
      var controlValues := control[phase];
      if phase !in experiment {
        return Err(JsObject.MapOnUndefined);
      }
      var experimentValues := experiment[phase];
      var st := stats(controlValues, experimentValues);
      var notSignificant := IsNotSignificant(st.ciMin, st.ciMax);
      sections := sections + [Section(
        phase, phase, !notSignificant,
        ToMilliseconds(controlValues, toMs), ToMilliseconds(experimentValues, toMs),
        st.ciMin, st.ciMax, st.estimator, servers, phase == "duration")];
      n := n + 1;
    }
    forall k | k in phases ensures k in experiment {
      var i :| 0 <= i < |phases| && phases[i] == k;
    }
    r := Ok(sections);
  }

  // ---------------------------------------------------------------------------
  // The cumulative chart.

  /** `cumulativeValueFunc`: the phase's end offset, in milliseconds. */
  function CumulativeValue(toMs: nat -> nat): PhaseData -> nat {
    (p: PhaseData) => toMs(p.start + p.duration)
  }

  type PhaseData = PhaseBuckets.PhaseData

  predicate NotPageLoadTime(k: string) {
    k != PhaseBuckets.PageLoadTime
  }

  /** The data of `buildCumulativeChartData`, before `JSON.stringify`: an
      experiment list the experiment does not have is `undefined` (`None`). */
  datatype ChartData = ChartData(categories: seq<string>, controlData: seq<seq<nat>>, experimentData: seq<Option<seq<nat>>>)

  /** `buildCumulativeChartData(controlData, experimentData)` */
  function BuildCumulativeChartData(control: seq<PhaseBuckets.Sample>, experiment: seq<PhaseBuckets.Sample>,
                                    toMs: nat -> nat): Result<ChartData, JsObject.TypeError>
  {
    var byPhaseControl := PhaseBuckets.Bucketed(control, CumulativeValue(toMs));
    var byPhaseExperiment := PhaseBuckets.Bucketed(experiment, CumulativeValue(toMs));
    if byPhaseControl.Err? then Err(byPhaseControl.error)
    else if byPhaseExperiment.Err? then Err(byPhaseExperiment.error)
    else
      var phases := JsObject.Filter(JsObject.ObjectKeys(byPhaseControl.value.keys), NotPageLoadTime);
      Ok(ChartData(
        phases,
        seq(|phases|, i requires 0 <= i < |phases| => PhaseBuckets.Get(byPhaseControl.value, phases[i])),
        seq(|phases|, i requires 0 <= i < |phases| =>
          if phases[i] in byPhaseExperiment.value.lists then Some(byPhaseExperiment.value.lists[phases[i]]) else None)))
  }

  /** The chart fails exactly when bucketing does; its categories are exactly
      the control's phase names other than `duration`; each control series is
      that phase's control bucket, and each experiment series is the
      experiment's bucket of that name when the experiment has the phase. */
  lemma ChartDataShape(control: seq<PhaseBuckets.Sample>, experiment: seq<PhaseBuckets.Sample>, toMs: nat -> nat)
    ensures BuildCumulativeChartData(control, experiment, toMs).Ok? <==>
      !PhaseBuckets.TouchesPrototype(PhaseBuckets.PhaseNames(control))
      && !PhaseBuckets.TouchesPrototype(PhaseBuckets.PhaseNames(experiment))
    ensures BuildCumulativeChartData(control, experiment, toMs).Ok? ==>
      var chart := BuildCumulativeChartData(control, experiment, toMs).value;
      var bc := PhaseBuckets.Bucketed(control, CumulativeValue(toMs)).value;
      var be := PhaseBuckets.Bucketed(experiment, CumulativeValue(toMs)).value;
      && (forall k :: k in chart.categories <==> k != PhaseBuckets.PageLoadTime && k in PhaseBuckets.PhaseNames(control))
      && |chart.controlData| == |chart.categories| && |chart.experimentData| == |chart.categories|
      && forall i :: 0 <= i < |chart.categories| ==>
           && chart.categories[i] in bc.lists
           && chart.controlData[i] == bc.lists[chart.categories[i]]
           && (chart.experimentData[i].Some? <==> chart.categories[i] in PhaseBuckets.PhaseNames(experiment))
           && (chart.experimentData[i].Some? ==> chart.experimentData[i].value == be.lists[chart.categories[i]])
  {
    var g := CumulativeValue(toMs);
    if !PhaseBuckets.TouchesPrototype(PhaseBuckets.PhaseNames(control))
       && !PhaseBuckets.TouchesPrototype(PhaseBuckets.PhaseNames(experiment)) {
      var bc := PhaseBuckets.Bucketed(control, g).value;
      var be := PhaseBuckets.Bucketed(experiment, g).value;
      var chart := BuildCumulativeChartData(control, experiment, toMs).value;
      assert chart.categories == JsObject.Filter(JsObject.ObjectKeys(bc.keys), NotPageLoadTime);
      forall k ensures k in chart.categories <==> k != PhaseBuckets.PageLoadTime && k in PhaseBuckets.PhaseNames(control) {
        PhaseBuckets.BucketedHas(control, g, k);
      }
      forall i | 0 <= i < |chart.categories|
        ensures chart.categories[i] in bc.lists
        ensures chart.categories[i] in be.lists <==> chart.categories[i] in PhaseBuckets.PhaseNames(experiment)
      {
        PhaseBuckets.BucketedHas(control, g, chart.categories[i]);
        PhaseBuckets.BucketedHas(experiment, g, chart.categories[i]);
      }
    }
  }

  /** When no phase is named like an array index, the categories are the
      control's bucket names after `duration`, in first-seen order. */
  lemma ChartCategoriesInOrder(control: seq<PhaseBuckets.Sample>, experiment: seq<PhaseBuckets.Sample>, toMs: nat -> nat)
    requires BuildCumulativeChartData(control, experiment, toMs).Ok?
    requires forall k :: k in PhaseBuckets.PhaseNames(control) ==> !JsObject.IsArrayIndex(k)
    ensures var keys := PhaseBuckets.Bucketed(control, CumulativeValue(toMs)).value.keys;
      0 < |keys| && BuildCumulativeChartData(control, experiment, toMs).value.categories == keys[1..]
  {
    var g := CumulativeValue(toMs);
    ChartDataShape(control, experiment, toMs);
    PhaseBuckets.BucketedKeys(control, g);
    var keys := PhaseBuckets.Bucketed(control, g).value.keys;
    forall i | 0 <= i < |keys| ensures JsObject.IsNamedKey(keys[i]) {
      PhaseBuckets.BucketedHas(control, g, keys[i]);
    }
    JsObject.ObjectKeysOfNamedKeys(keys);
    FilterDropsLeadingDuration(keys);
  }

  lemma FilterDropsLeadingDuration(keys: seq<string>)
    requires 0 < |keys| && keys[0] == PhaseBuckets.PageLoadTime
    requires PhaseBuckets.Distinct(keys)
    ensures JsObject.Filter(keys, NotPageLoadTime) == keys[1..]
  {
    forall i | 0 <= i < |keys[1..]| ensures NotPageLoadTime(keys[1..][i]) {
      assert keys[1..][i] == keys[i + 1];
    }
    JsObject.FilterAll(keys[1..], NotPageLoadTime);
  }

  // ---------------------------------------------------------------------------
  // The whole report.

  /** The data handed to the report template. */
  datatype Report = Report(chart: ChartData, titles: ReportTitles, sections: seq<Section>)

  /** `createConsumeableHTML(controlData, experimentData, tbConfig)` up to the
      template: `stats` stands for `new Stats(...)`, `toMs` for
      `convertMicrosecondsToMS`. It throws when a phase is named after an
      inherited property, or when the control has a phase the experiment lacks. */
  method CreateConsumableHtml(control: seq<PhaseBuckets.Sample>, experiment: seq<PhaseBuckets.Sample>,
                              config: TitleConfig, defaultPlotTitle: string,
                              stats: (seq<nat>, seq<nat>) -> StatsResult, toMs: nat -> nat)
    returns (r: Result<Report, JsObject.TypeError>)
    ensures r.Ok? <==>
      && !PhaseBuckets.TouchesPrototype(PhaseBuckets.PhaseNames(control))
      && !PhaseBuckets.TouchesPrototype(PhaseBuckets.PhaseNames(experiment))
      && CoversControl(control, experiment)
    ensures r.Err? ==>
      r.error == if PhaseBuckets.TouchesPrototype(PhaseBuckets.PhaseNames(control))
                    || PhaseBuckets.TouchesPrototype(PhaseBuckets.PhaseNames(experiment))
                 then JsObject.PushOnNonArray else JsObject.MapOnUndefined
    ensures r.Ok? ==>
      && TitlesResolved(config, defaultPlotTitle, r.value.titles)
      && BuildCumulativeChartData(control, experiment, toMs) == Ok(r.value.chart)
    ensures r.Ok? ==>
      var bc := PhaseBuckets.Bucketed(control, PhaseBuckets.PhaseDuration).value;
      var be := PhaseBuckets.Bucketed(experiment, PhaseBuckets.PhaseDuration).value;
      var phases := JsObject.ObjectKeys(bc.keys);
      && |r.value.sections| == |phases|
      && forall i :: 0 <= i < |phases| ==>
           && phases[i] in bc.lists && phases[i] in be.lists
           && IsSection(r.value.sections[i], phases[i], bc.lists[phases[i]], be.lists[phases[i]],
                        stats, toMs, r.value.titles.servers)
  {
    var byPhaseControl := PhaseBuckets.BucketPhaseValues(control, PhaseBuckets.PhaseDuration);
    if byPhaseControl.Err? {
      return Err(byPhaseControl.error);
    }
    var byPhaseExperiment := PhaseBuckets.BucketPhaseValues(experiment, PhaseBuckets.PhaseDuration);
    if byPhaseExperiment.Err? {
      return Err(byPhaseExperiment.error);
    }
    PhaseBuckets.BucketedKeys(control, PhaseBuckets.PhaseDuration);
    var titles := ResolveTitles(config, defaultPlotTitle);
    var sections := AssembleSections(byPhaseControl.value, byPhaseExperiment.value, stats, toMs, titles.servers);
    if sections.Err? {
      SectionsFailOnMissingPhase(control, experiment);
      return Err(sections.error);
    }
    SectionsFailOnMissingPhase(control, experiment);
    ChartDataShape(control, experiment, toMs);
    var chart := BuildCumulativeChartData(control, experiment, toMs);
    r := Ok(Report(chart.value, titles, sections.value));
  }

  /** Every control bucket name is an experiment bucket name exactly when every
      control phase name other than `duration` occurs in the experiment (both
      always have a `duration` bucket). */
  lemma SectionsFailOnMissingPhase(control: seq<PhaseBuckets.Sample>, experiment: seq<PhaseBuckets.Sample>)
    requires !PhaseBuckets.TouchesPrototype(PhaseBuckets.PhaseNames(control))
    requires !PhaseBuckets.TouchesPrototype(PhaseBuckets.PhaseNames(experiment))
    ensures var bc := PhaseBuckets.Bucketed(control, PhaseBuckets.PhaseDuration).value;
      var be := PhaseBuckets.Bucketed(experiment, PhaseBuckets.PhaseDuration).value;
      (forall k :: k in bc.keys ==> k in be.lists) <==> CoversControl(control, experiment)
  {
    var g := PhaseBuckets.PhaseDuration;
    PhaseBuckets.BucketedHas(control, g, PhaseBuckets.PageLoadTime);
    var bc := PhaseBuckets.Bucketed(control, g).value;
    var be := PhaseBuckets.Bucketed(experiment, g).value;
    if forall k :: k in bc.keys ==> k in be.lists {
      forall k | k in PhaseBuckets.PhaseNames(control) && k != PhaseBuckets.PageLoadTime
        ensures k in PhaseBuckets.PhaseNames(experiment)
      {
        PhaseBuckets.BucketedHas(control, g, k);
        PhaseBuckets.BucketedHas(experiment, g, k);
      }
    }
    if CoversControl(control, experiment) {
      forall k | k in bc.keys ensures k in be.lists {
        PhaseBuckets.BucketedHas(control, g, k);
        PhaseBuckets.BucketedHas(experiment, g, k);
      }
    }
  }

  /** Every phase the control has, other than `duration`, the experiment has too. */
  predicate CoversControl(control: seq<PhaseBuckets.Sample>, experiment: seq<PhaseBuckets.Sample>) {
    forall k :: k in PhaseBuckets.PhaseNames(control) && k != PhaseBuckets.PageLoadTime ==>
      k in PhaseBuckets.PhaseNames(experiment)
  }

  // ---------------------------------------------------------------------------
  // Template helpers.

  predicate IsLower(c: char) {
    'a' <= c <= 'z'
  }

  /** `toUpperCase` of an ASCII lower-case letter. */
  function Upper(c: char): (u: char)
    requires IsLower(c)
    ensures 'A' <= u <= 'Z' && u as int == c as int - 32
  {
    (c as int - 32) as char
  }

  /** `val.replace(/-([a-z])/g, g => g[1].toUpperCase())`: scanning left to
      right, each `-` followed by a lower-case ASCII letter becomes that letter
      upper-cased; the scan resumes after the pair. */
  function ToCamel(s: string): (r: string)
    ensures |r| <= |s|
  {
    if |s| == 0 then ""
    else if 2 <= |s| && s[0] == '-' && IsLower(s[1]) then [Upper(s[1])] + ToCamel(s[2..])
    else [s[0]] + ToCamel(s[1..])
  }

  /** No `-` is directly followed by a lower-case ASCII letter. */
  predicate NoDashLower(s: string) {
    forall i :: 0 <= i < |s| - 1 ==> !(s[i] == '-' && IsLower(s[i + 1]))
  }

  lemma ToCamelHead(s: string)
    requires 0 < |s|
    ensures 0 < |ToCamel(s)|
    ensures IsLower(ToCamel(s)[0]) ==> ToCamel(s)[0] == s[0]
  {
  }

  /** Nothing the pattern matches is left in the result. */
  lemma {:induction false} ToCamelNoDashLower(s: string)
    ensures NoDashLower(ToCamel(s))
  {
    if |s| == 0 {
    } else if 2 <= |s| && s[0] == '-' && IsLower(s[1]) {
      ToCamelNoDashLower(s[2..]);
      var r := ToCamel(s);
      assert r == [Upper(s[1])] + ToCamel(s[2..]);
      forall i | 0 <= i < |r| - 1 ensures !(r[i] == '-' && IsLower(r[i + 1])) {
        if 0 < i {
          assert r[i] == ToCamel(s[2..])[i - 1] && r[i + 1] == ToCamel(s[2..])[i];
        }
      }
    } else {
      ToCamelNoDashLower(s[1..]);
      var r := ToCamel(s);
      assert r == [s[0]] + ToCamel(s[1..]);
      forall i | 0 <= i < |r| - 1 ensures !(r[i] == '-' && IsLower(r[i + 1])) {
        if 0 < i {
          assert r[i] == ToCamel(s[1..])[i - 1] && r[i + 1] == ToCamel(s[1..])[i];
        } else if 1 < |r| {
          ToCamelHead(s[1..]);
        }
      }
    }
  }

  /** A string the pattern does not match is left unchanged. */
  lemma {:induction false} ToCamelFixpoint(s: string)
    requires NoDashLower(s)
    ensures ToCamel(s) == s
  {
    if 0 < |s| {
      assert NoDashLower(s[1..]) by {
        forall i | 0 <= i < |s[1..]| - 1 ensures !(s[1..][i] == '-' && IsLower(s[1..][i + 1])) {
          assert s[1..][i] == s[i + 1] && s[1..][i + 1] == s[i + 2];
        }
      }
      ToCamelFixpoint(s[1..]);
      assert !(2 <= |s| && s[0] == '-' && IsLower(s[1]));
    }
  }

  /** Applying the helper twice is applying it once. */
  lemma ToCamelIdempotent(s: string)
    ensures ToCamel(ToCamel(s)) == ToCamel(s)
  {
    ToCamelNoDashLower(s);
    ToCamelFixpoint(ToCamel(s));
  }

  /** One step of the scan when a matched `-x` pair starts the string. */
  lemma ToCamelMatchStep(x: string)
    requires 2 <= |x| && x[0] == '-' && IsLower(x[1])
    ensures ToCamel(x) == [Upper(x[1])] + ToCamel(x[2..])
  {
  }

  /** One step of the scan when no matched pair starts the string. */
  lemma ToCamelKeepStep(x: string)
    requires 0 < |x| && !(2 <= |x| && x[0] == '-' && IsLower(x[1]))
    ensures ToCamel(x) == [x[0]] + ToCamel(x[1..])
  {
  }

  lemma SeqAppendAssoc(a: string, b: string, c: string)
    ensures a + (b + c) == (a + b) + c
  {
  }

  /** The replace is local: a string that does not end in `-` is rewritten on
      its own, whatever follows it. Together with `ToCamelFixpoint`, a segment
      without a matched `-x` pair is kept as it is, wherever it stands. */
  lemma {:induction false} ToCamelAppend(s: string, t: string)
    requires |s| == 0 || s[|s| - 1] != '-'
    ensures ToCamel(s + t) == ToCamel(s) + ToCamel(t)
  {
    var u := s + t;
    if |s| == 0 {
      assert u == t;
    } else if 2 <= |s| && s[0] == '-' && IsLower(s[1]) {
      assert u[2..] == s[2..] + t;
      ToCamelAppend(s[2..], t);
      ToCamelMatchStep(u);
      ToCamelMatchStep(s);
      SeqAppendAssoc([Upper(s[1])], ToCamel(s[2..]), ToCamel(t));
    } else {
      assert u[1..] == s[1..] + t;
      ToCamelAppend(s[1..], t);
      assert |s| == 1 ==> s[0] != '-';
      ToCamelKeepStep(u);
      ToCamelKeepStep(s);
      SeqAppendAssoc([s[0]], ToCamel(s[1..]), ToCamel(t));
    }
  }

  lemma ToCamelReplacesDashLower()
    ensures ToCamel("foo-bar") == "fooBar"
  {
  }

  lemma ToCamelKeepsDashUpper()
    ensures ToCamel("foo-Bar") == "foo-Bar"
  {
  }

  lemma ToCamelResumesAfterDash()
    ensures ToCamel("a--b") == "a-B"
  {
  }

  /** The `isFaster` helper: a positive estimator means the experiment is faster. */
  predicate IsFaster(section: Section) {
    section.hlDiff > 0.0
  }

  /** The `abs` helper, `Math.abs`. */
  function Abs(x: real): (r: real)
    ensures 0.0 <= r && (r == x || r == -x)
  {
    if x < 0.0 then -x else x
  }

  /** Faster sections show their estimator as is; negative means slower, and
      the template shows it without its sign. */
  lemma FasterAndAbs(section: Section)
    ensures IsFaster(section) ==> Abs(section.hlDiff) == section.hlDiff
    ensures section.hlDiff < 0.0 ==> !IsFaster(section) && Abs(section.hlDiff) == -section.hlDiff
    ensures Abs(-section.hlDiff) == Abs(section.hlDiff)
  {
  }
}
