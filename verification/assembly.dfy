/** The bookkeeping around ROOT's histograms in harvest/plot_xs.py: the main
    list `hs` (denominator first, then numerators in command-line order), the
    ratio list `h_ratios`, and the legend name each histogram carries. ROOT
    objects are left abstract: a histogram is the data it was built from. */
module Assembly {
  import opened Results
  import opened TableReader
  import opened Binning

  /** A table read from `path`. */
  datatype Source = Source(path: string, table: Table)

  /** A `TH1D` named `name`, titled `title`, on axis `axis`, filled with the
      rows of `samples`. */
  datatype Hist = Hist(name: string, title: string, axis: Axis, samples: Table)

  /** `numerator.Clone()` divided by `denominator` (ROOT's `Divide`). */
  datatype Ratio = Ratio(numerator: Hist, denominator: Hist)

  /** The lists `hs` and `h_ratios`. */
  datatype Plot = Plot(hs: seq<Hist>, ratios: seq<Ratio>)

  /** `args.leg[i]`, or `path` when that raises `IndexError`. */
  function LegendName(leg: seq<string>, i: nat, path: string): string {
    if i < |leg| then leg[i] else path
  }

  /** The histogram of one table; `None` when its axis cannot be built. */
  function MakeHist(src: Source, name: string, title: string): Option<Hist> {
    match AxisFor(src.table.m)
    case None => None
    case Some(a) => Some(Hist(name, title, a, src.table))
  }

  /** `h` is the histogram of `src` under the legend name `name`. */
  predicate HistOf(h: Hist, src: Source, name: string, title: string) {
    && AxisFor(src.table.m) == Some(h.axis)
    && h.name == name && h.title == title && h.samples == src.table
  }

  /** The histograms of the numerator loop, in command-line order; numerator
      `k` is named by `args.leg[k+1]` (the shift assumes a denominator comes
      first, and is made with or without one). The error is the path of the
      first numerator without two rows. */
  function Numerators(nums: seq<Source>, leg: seq<string>, title: string): (r: Result<seq<Hist>, string>)
    ensures r.Ok? <==> forall k | 0 <= k < |nums| :: |nums[k].table.m| >= 2
    ensures r.Ok? ==>
      && |r.value| == |nums|
      && forall k | 0 <= k < |nums| :: HistOf(r.value[k], nums[k], LegendName(leg, k + 1, nums[k].path), title)
    ensures r.Err? ==>
      exists k | 0 <= k < |nums| ::
        && nums[k].path == r.error && |nums[k].table.m| < 2
        && forall j | 0 <= j < k :: |nums[j].table.m| >= 2
    decreases |nums|
  {
    if nums == [] then Ok([])
    else
      var k := |nums| - 1;
      match Numerators(nums[..k], leg, title)
      case Err(e) =>
        assert forall j | 0 <= j < k :: nums[..k][j] == nums[j];
        Err(e)
      case Ok(hs) =>
        assert forall j | 0 <= j < k :: nums[..k][j] == nums[j];
        match MakeHist(nums[k], LegendName(leg, k + 1, nums[k].path), title)
        case None => Err(nums[k].path)
        case Some(h) => Ok(hs + [h])
  }

  /** Each histogram of `hs` divided by `den`, in the same order. */
  function RatiosTo(den: Hist, hs: seq<Hist>): (rs: seq<Ratio>)
    ensures |rs| == |hs|
    ensures forall i | 0 <= i < |hs| :: rs[i].numerator == hs[i] && rs[i].denominator == den
  {
    seq(|hs|, i requires 0 <= i < |hs| => Ratio(hs[i], den))
  }

  /** Numerator histograms placed after the denominator's keep their tables
      and legend names, one position later. */
  lemma AfterDenominator(h: Hist, ns: seq<Hist>, nums: seq<Source>, leg: seq<string>, title: string)
    requires |ns| == |nums|
    requires forall k | 0 <= k < |nums| :: HistOf(ns[k], nums[k], LegendName(leg, k + 1, nums[k].path), title)
    ensures forall k | 0 <= k < |nums| ::
      HistOf(([h] + ns)[k + 1], nums[k], LegendName(leg, k + 1, nums[k].path), title)
  {
    forall k | 0 <= k < |nums|
      ensures HistOf(([h] + ns)[k + 1], nums[k], LegendName(leg, k + 1, nums[k].path), title)
    {
      assert ([h] + ns)[k + 1] == ns[k];
    }
  }

  /** The histogram lists of a run: the denominator's histogram and its
      self-ratio first (when there is a denominator), then the numerators with
      their ratios to `hs[0]`. */
  function Assemble(den: Option<Source>, nums: seq<Source>, leg: seq<string>, title: string)
    : (r: Result<Plot, string>)
    ensures r.Ok? <==>
      (den.Some? ==> |den.value.table.m| >= 2) && forall k | 0 <= k < |nums| :: |nums[k].table.m| >= 2
    ensures r.Ok? ==> |r.value.hs| == |nums| + (if den.Some? then 1 else 0)
    ensures r.Ok? && den.Some? ==>
      HistOf(r.value.hs[0], den.value, LegendName(leg, 0, den.value.path), title)
    ensures r.Ok? && den.None? ==> forall k | 0 <= k < |nums| ::
      HistOf(r.value.hs[k], nums[k], LegendName(leg, k + 1, nums[k].path), title)
    ensures r.Ok? && den.Some? ==> forall k | 0 <= k < |nums| ::
      HistOf(r.value.hs[k + 1], nums[k], LegendName(leg, k + 1, nums[k].path), title)
    ensures r.Ok? && den.Some? ==>
      && |r.value.ratios| == |r.value.hs|
      && forall i | 0 <= i < |r.value.ratios| :: r.value.ratios[i] == Ratio(r.value.hs[i], r.value.hs[0])
    ensures r.Ok? && den.None? ==> r.value.ratios == []
    // the denominator is checked before any numerator
    ensures den.Some? && |den.value.table.m| < 2 ==> r == Err(den.value.path)
    // past a usable denominator, the first short numerator is named
    ensures r.Err? && (den.Some? ==> |den.value.table.m| >= 2) ==>
      exists k | 0 <= k < |nums| ::
        && nums[k].path == r.error && |nums[k].table.m| < 2
        && forall j | 0 <= j < k :: |nums[j].table.m| >= 2
  {
    match den
    case None =>
      var hs :- Numerators(nums, leg, title);
      Ok(Plot(hs, []))
    case Some(d) =>
      match MakeHist(d, LegendName(leg, 0, d.path), title)
      case None => Err(d.path)
      case Some(h) =>
        var ns :- Numerators(nums, leg, title);
        var hs := [h] + ns;
        AfterDenominator(h, ns, nums, leg, title);
        Ok(Plot(hs, RatiosTo(h, hs)))
  }

  /** Why a table could not be read. */
  datatype LoadError =
    | FileMissing(path: string)             // `open` raises IOError
    | Malformed(path: string, error: LineError)

  /** The errors that end a run before anything is drawn. */
  datatype RunError =
    | NoNumerator                           // the script asks for a numerator table and exits
    | CannotLoad(cause: LoadError)
    | TooFewRows(path: string)              // `m[1]` raises IndexError

  /** Python truthiness of `args.den`: absent and empty paths are false. */
  predicate HasDen(den: Option<string>) {
    den.Some? && den.value != ""
  }

  /** `get_table_values(path)` against a file system given as contents by path. */
  function Load(path: string, files: map<string, string>, parse: Parser): (r: Result<Source, LoadError>)
    ensures r.Ok? ==> r.value.path == path && path in files
    ensures r.Err? ==> r.error.path == path
    ensures r.Err? && r.error.FileMissing? <==> path !in files
    ensures path in files ==> (r.Ok? <==> ReadTable(files[path], parse).Ok?)
    ensures r.Ok? ==> Ok(r.value.table) == ReadTable(files[path], parse)
  {
    if path !in files then Err(FileMissing(path))
    else match ReadTable(files[path], parse)
      case Err(e) => Err(Malformed(path, e))
      case Ok(t) => Ok(Source(path, t))
  }

  /** The numerator tables, read with `load` in command-line order; the first
      failure wins. */
  function LoadAll(paths: seq<string>, load: string -> Result<Source, LoadError>)
    : (r: Result<seq<Source>, LoadError>)
    ensures r.Ok? <==> forall k | 0 <= k < |paths| :: load(paths[k]).Ok?
    ensures r.Ok? ==>
      |r.value| == |paths| && forall k | 0 <= k < |paths| :: Ok(r.value[k]) == load(paths[k])
    decreases |paths|
  {
    if paths == [] then Ok([])
    else
      var k := |paths| - 1;
      var srcs :- LoadAll(paths[..k], load);
      var s :- load(paths[k]);
      Ok(srcs + [s])
  }

  /** The error of `LoadAll` is that of the first table that fails to load. */
  lemma {:induction false} LoadAllFirstFailure(paths: seq<string>, load: string -> Result<Source, LoadError>)
    requires LoadAll(paths, load).Err?
    ensures exists k | 0 <= k < |paths| ::
      && load(paths[k]) == Err(LoadAll(paths, load).error)
      && forall j | 0 <= j < k :: load(paths[j]).Ok?
    decreases |paths|
  {
    var k := |paths| - 1;
    var e := LoadAll(paths, load).error;
    assert forall j | 0 <= j < k :: paths[..k][j] == paths[j];
    if LoadAll(paths[..k], load).Err? {
      LoadAllFirstFailure(paths[..k], load);
      var i :| 0 <= i < k && load(paths[..k][i]) == Err(e)
        && forall j | 0 <= j < i :: load(paths[..k][j]).Ok?;
      assert load(paths[i]) == Err(e);
    } else {
      assert load(paths[k]) == Err(e);
    }
  }

  /** A loaded table from which a histogram can be built. */
  predicate Usable(x: Result<Source, LoadError>) {
    x.Ok? && |x.value.table.m| >= 2
  }

  /** Histograms built from the tables `srcs` are histograms of what `load`
      returned for `nums`, when `srcs` holds exactly those tables. */
  lemma HistsOfLoads(den: Option<string>, nums: seq<string>, leg: seq<string>, title: string,
                     load: string -> Result<Source, LoadError>, d: Option<Source>, hs: seq<Hist>, srcs: seq<Source>)
    requires forall k | 0 <= k < |nums| :: load(nums[k]).Ok?
    requires |srcs| == |nums| && forall k | 0 <= k < |nums| :: srcs[k] == load(nums[k]).value
    requires d.Some? <==> HasDen(den)
    requires |hs| == |srcs| + (if d.Some? then 1 else 0)
    requires d.None? ==> forall k | 0 <= k < |srcs| ::
      HistOf(hs[k], srcs[k], LegendName(leg, k + 1, srcs[k].path), title)
    requires d.Some? ==> forall k | 0 <= k < |srcs| ::
      HistOf(hs[k + 1], srcs[k], LegendName(leg, k + 1, srcs[k].path), title)
    ensures var off := if HasDen(den) then 1 else 0;
      forall k | 0 <= k < |nums| ::
        HistOf(hs[off + k], load(nums[k]).value, LegendName(leg, k + 1, load(nums[k]).value.path), title)
  {
    var off := if HasDen(den) then 1 else 0;
    forall k | 0 <= k < |nums|
      ensures HistOf(hs[off + k], load(nums[k]).value, LegendName(leg, k + 1, load(nums[k]).value.path), title)
    {
      assert srcs[k] == load(nums[k]).value;
      if d.Some? {
        assert HistOf(hs[k + 1], srcs[k], LegendName(leg, k + 1, srcs[k].path), title);
      } else {
        assert HistOf(hs[k], srcs[k], LegendName(leg, k + 1, srcs[k].path), title);
      }
    }
  }

  /** The script from option parsing up to the filled lists, reading tables
      with `load`: check for a numerator, read the denominator then the
      numerators, build histograms. */
  function RunWith(den: Option<string>, nums: seq<string>, leg: seq<string>, title: string,
                   load: string -> Result<Source, LoadError>): (r: Result<Plot, RunError>)
    ensures r == Err(NoNumerator) <==> nums == []
    ensures r.Ok? <==>
      && nums != []
      && (HasDen(den) ==> Usable(load(den.value)))
      && forall k | 0 <= k < |nums| :: Usable(load(nums[k]))
    ensures r.Ok? ==> |r.value.hs| == |nums| + (if HasDen(den) then 1 else 0) >= 1
    ensures r.Ok? ==> |r.value.ratios| == (if HasDen(den) then |r.value.hs| else 0)
    ensures r.Ok? ==>
      var off := if HasDen(den) then 1 else 0;
      forall k | 0 <= k < |nums| ::
        HistOf(r.value.hs[off + k], load(nums[k]).value, LegendName(leg, k + 1, load(nums[k]).value.path), title)
    ensures r.Ok? && HasDen(den) ==>
      HistOf(r.value.hs[0], load(den.value).value, LegendName(leg, 0, load(den.value).value.path), title)
  {
    if nums == [] then Err(NoNumerator)
    else
      var d :- if HasDen(den) then
                 match load(den.value)
                 case Err(e) => Err(CannotLoad(e))
                 case Ok(s) => Ok(Some(s))
               else Ok(None);
      match LoadAll(nums, load)
      case Err(e) => Err(CannotLoad(e))
      case Ok(srcs) =>
        assert forall k | 0 <= k < |nums| :: srcs[k] == load(nums[k]).value;
        match Assemble(d, srcs, leg, title)
        case Err(path) => Err(TooFewRows(path))
        case Ok(p) =>
          HistsOfLoads(den, nums, leg, title, load, d, p.hs, srcs);
          Ok(p)
  }

  /** A failed read ends a run before any row count is checked: the
      denominator's read first, then the numerators' in command-line order. */
  lemma RunWithReadOrder(den: Option<string>, nums: seq<string>, leg: seq<string>, title: string,
                         load: string -> Result<Source, LoadError>)
    ensures var r := RunWith(den, nums, leg, title, load);
      r.Err? && r.error.CannotLoad? <==>
        && nums != []
        && ((HasDen(den) && load(den.value).Err?) || exists k | 0 <= k < |nums| :: load(nums[k]).Err?)
    ensures nums != [] && HasDen(den) && load(den.value).Err? ==>
      RunWith(den, nums, leg, title, load) == Err(CannotLoad(load(den.value).error))
    ensures var r := RunWith(den, nums, leg, title, load);
      r.Err? && r.error.CannotLoad? && !(HasDen(den) && load(den.value).Err?) ==>
        exists k | 0 <= k < |nums| ::
          && load(nums[k]) == Err(r.error.cause)
          && forall j | 0 <= j < k :: load(nums[j]).Ok?
  {
    if nums != [] && !(HasDen(den) && load(den.value).Err?) && LoadAll(nums, load).Err? {
      LoadAllFirstFailure(nums, load);
    }
  }

  /** When every table reads but one is too short for a histogram, the run
      names the denominator if it is short, else the first short numerator. */
  lemma RunWithShortTable(den: Option<string>, nums: seq<string>, leg: seq<string>, title: string,
                          load: string -> Result<Source, LoadError>)
    ensures var r := RunWith(den, nums, leg, title, load);
      r.Err? && r.error.TooFewRows? ==>
        if HasDen(den) && |load(den.value).value.table.m| < 2 then
          r.error.path == load(den.value).value.path
        else
          exists k | 0 <= k < |nums| ::
            && r.error.path == load(nums[k]).value.path && |load(nums[k]).value.table.m| < 2
            && forall j | 0 <= j < k :: |load(nums[j]).value.table.m| >= 2
  {
    var r := RunWith(den, nums, leg, title, load);
    if r.Err? && r.error.TooFewRows? {
      assert nums != [] && (HasDen(den) ==> load(den.value).Ok?) && LoadAll(nums, load).Ok?;
      var d := if HasDen(den) then Some(load(den.value).value) else None;
      var srcs := LoadAll(nums, load).value;
      var a := Assemble(d, srcs, leg, title);
      assert a.Err? && r.error.path == a.error;
      if !(HasDen(den) && |load(den.value).value.table.m| < 2) {
        var k :| 0 <= k < |srcs| && srcs[k].path == a.error && |srcs[k].table.m| < 2
          && forall j | 0 <= j < k :: |srcs[j].table.m| >= 2;
        assert forall j | 0 <= j < |nums| :: srcs[j] == load(nums[j]).value;
        assert srcs[k] == load(nums[k]).value;
      }
    }
  }

  /** The script run against a file system given as contents by path. */
  function Run(den: Option<string>, nums: seq<string>, leg: seq<string>, title: string,
               files: map<string, string>, parse: Parser): (r: Result<Plot, RunError>)
    ensures r == Err(NoNumerator) <==> nums == []
    ensures r.Ok? ==> |r.value.hs| == |nums| + (if HasDen(den) then 1 else 0) >= 1
    ensures r.Ok? ==> |r.value.ratios| == (if HasDen(den) then |r.value.hs| else 0)
    ensures r.Ok? ==> forall k | 0 <= k < |nums| :: nums[k] in files
    ensures r.Ok? && HasDen(den) ==> den.value in files
  {
    RunWith(den, nums, leg, title, p => Load(p, files, parse))
  }

  /** `path` names a file that reads as a table with at least two rows, so its
      histogram can be built. */
  predicate Loads(path: string, files: map<string, string>, parse: Parser) {
    && path in files
    && ReadTable(files[path], parse).Ok?
    && |ReadTable(files[path], parse).value.m| >= 2
  }

  /** Loading `path` gives a usable table exactly when the file reads as one. */
  lemma UsableIffLoads(path: string, files: map<string, string>, parse: Parser)
    ensures Usable(Load(path, files, parse)) <==> Loads(path, files, parse)
    ensures Usable(Load(path, files, parse)) ==>
      Load(path, files, parse).value == Source(path, ReadTable(files[path], parse).value)
  {
  }

  /** A run with a numerator succeeds exactly when the denominator (if given)
      and every numerator name a file that reads as a table of two rows or more. */
  lemma RunOkIff(den: Option<string>, nums: seq<string>, leg: seq<string>, title: string,
                 files: map<string, string>, parse: Parser)
    requires nums != []
    ensures Run(den, nums, leg, title, files, parse).Ok? <==>
      && (HasDen(den) ==> Loads(den.value, files, parse))
      && forall k | 0 <= k < |nums| :: Loads(nums[k], files, parse)
  {
    var load := p => Load(p, files, parse);
    assert Run(den, nums, leg, title, files, parse) == RunWith(den, nums, leg, title, load);
    if HasDen(den) {
      UsableIffLoads(den.value, files, parse);
    }
    forall k | 0 <= k < |nums|
      ensures Usable(load(nums[k])) <==> Loads(nums[k], files, parse)
    {
      UsableIffLoads(nums[k], files, parse);
    }
  }

  /** In a successful run, numerator curve `k` (after the denominator's, when
      one is given) is filled from the table read at `nums[k]` and is named
      `leg[k+1]`, or that path when the label list is too short; the
      denominator's curve comes from its own table, named `leg[0]` or its path. */
  lemma RunCurves(den: Option<string>, nums: seq<string>, leg: seq<string>, title: string,
                  files: map<string, string>, parse: Parser)
    ensures var r := Run(den, nums, leg, title, files, parse);
      var off := if HasDen(den) then 1 else 0;
      r.Ok? ==> forall k | 0 <= k < |nums| ::
        && nums[k] in files
        && r.value.hs[off + k].samples == ReadTable(files[nums[k]], parse).value
        && r.value.hs[off + k].name == LegendName(leg, k + 1, nums[k])
    ensures var r := Run(den, nums, leg, title, files, parse);
      r.Ok? && HasDen(den) ==>
        && den.value in files
        && r.value.hs[0].samples == ReadTable(files[den.value], parse).value
        && r.value.hs[0].name == LegendName(leg, 0, den.value)
  {
    var load := p => Load(p, files, parse);
    assert Run(den, nums, leg, title, files, parse) == RunWith(den, nums, leg, title, load);
    if RunWith(den, nums, leg, title, load).Ok? {
      if HasDen(den) {
        UsableIffLoads(den.value, files, parse);
      }
      forall k | 0 <= k < |nums|
        ensures Usable(load(nums[k]))
        ensures load(nums[k]).value == Source(nums[k], ReadTable(files[nums[k]], parse).value)
      {
        UsableIffLoads(nums[k], files, parse);
      }
    }
  }

  /** Which error ends a failed run: a failed read of the denominator wins;
      otherwise a failed read names the denominator or the first numerator
      that does not load; a short table names the denominator, or else the
      first numerator that is too short, all earlier ones being usable. */
  lemma RunErrorOrder(den: Option<string>, nums: seq<string>, leg: seq<string>, title: string,
                      files: map<string, string>, parse: Parser)
    ensures nums != [] && HasDen(den) && Load(den.value, files, parse).Err? ==>
      Run(den, nums, leg, title, files, parse) == Err(CannotLoad(Load(den.value, files, parse).error))
    ensures var r := Run(den, nums, leg, title, files, parse);
      r.Err? && r.error.CannotLoad? ==>
        || (HasDen(den) && r.error.cause.path == den.value)
        || exists k | 0 <= k < |nums| ::
             && r.error.cause.path == nums[k]
             && forall j | 0 <= j < k :: Load(nums[j], files, parse).Ok?
    ensures var r := Run(den, nums, leg, title, files, parse);
      r.Err? && r.error.TooFewRows? ==>
        || (HasDen(den) && r.error.path == den.value)
        || exists k | 0 <= k < |nums| ::
             && r.error.path == nums[k]
             && forall j | 0 <= j < k :: Usable(Load(nums[j], files, parse))
  {
    var load := p => Load(p, files, parse);
    assert Run(den, nums, leg, title, files, parse) == RunWith(den, nums, leg, title, load);
    RunWithReadOrder(den, nums, leg, title, load);
    RunWithShortTable(den, nums, leg, title, load);
    var r := RunWith(den, nums, leg, title, load);
    if r.Err? && r.error.TooFewRows? {
      RunWithReadOrder(den, nums, leg, title, load);
      assert (HasDen(den) ==> load(den.value).Ok?) && forall k | 0 <= k < |nums| :: load(nums[k]).Ok?;
    }
  }
}
