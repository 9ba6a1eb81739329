/**
 * The in-memory instrument model: the base instrument's defaults, the
 * per-instrument tables that each subclass overrides, and the mutable
 * exposure state with its setters.
 */
module Instruments {
  import opened Options
  import opened Decimal
  import opened Binning

  /** The instrument subclasses. */
  datatype Kind = HIRES | MOSFIRE | NIRES | NIRESim | LRISb | LRISr | ESI

  /** What a subclass fixes at construction: its name and its tables. */
  datatype Config = Config(
    name: string,
    optical: bool,
    basename: string,
    binnings: seq<string>,
    scripts: seq<string>,
    allowedSampmodes: seq<int>,
    initialSampmode: int)

  /** `sampmode_trans`: the readout name shown for each sampling mode. */
  const SampmodeNames: map<int, string> := map[1 := "CCD", 2 := "CDS", 3 := "MCDS16"]

  /** The base class's defaults, which subclasses inherit unless they override them. */
  const BaseBinnings: seq<string> := ["1x1"]
  const BaseScripts: seq<string> := ["stare", "slit nod", "ABBA", "ABB'A'", "box5", "box9"]
  const InitialScript: string := "stare"
  const InitialBinning: (int, int) := (1, 1)

  const OpticalSampmodes: seq<int> := [1]
  const InfraredSampmodes: seq<int> := [2, 3]

  /**
   * The configuration of each subclass; `date` is the UTC date ('%Y%m%d')
   * that the subclass puts into its file base name.
   */
  function ConfigOf(kind: Kind, date: string): (c: Config)
    ensures InitialScript in c.scripts
    ensures "1x1" in c.binnings
    ensures c.initialSampmode in c.allowedSampmodes
    ensures c.optical ==> c.allowedSampmodes == [1] && c.initialSampmode == 1
    ensures !c.optical ==> c.allowedSampmodes == [2, 3] && c.initialSampmode == 2
    ensures forall m <- c.allowedSampmodes :: m in SampmodeNames
    ensures exists prefix :: |prefix| >= 1 && c.basename == prefix + date + "_"
  {
    match kind
    case HIRES =>
      Config("HIRES", true, "h" + date + "_",
             ["1x1", "1x2", "2x1", "2x2"], ["stare", "slit nod", "ABBA", "ABB'A'"],
             OpticalSampmodes, 1)
    case MOSFIRE =>
      Config("MOSFIRE", false, "m" + date + "_",
             BaseBinnings, BaseScripts,
             InfraredSampmodes, 2)
    case NIRES =>
      Config("NIRES", false, "n" + date + "_",
             BaseBinnings, ["stare", "slit nod", "ABBA", "ABB'A'"],
             InfraredSampmodes, 2)
    case NIRESim =>
      Config("NIRES Slit Viewing Camera", false, "ns" + date + "_",
             BaseBinnings, ["stare", "box5", "box9"],
             InfraredSampmodes, 2)
    case LRISb =>
      Config("LRIS Blue", true, "b" + date + "_",
             ["1x1", "1x2", "2x2"], ["stare"],
             OpticalSampmodes, 1)
    case LRISr =>
      Config("LRIS Red", true, "r" + date + "_",
             ["1x1", "1x2", "2x1", "2x2"], ["stare"],
             OpticalSampmodes, 1)
    case ESI =>
      Config("ESI", true, "e" + date + "_",
             ["1x1", "1x2", "2x1", "2x2"], ["stare", "slit nod", "ABBA", "ABB'A'"],
             OpticalSampmodes, 1)
  }

  /** The Python class that models each kind of instrument. */
  function ClassName(kind: Kind): string
  {
    match kind
    case HIRES => "HIRES"
    case MOSFIRE => "MOSFIRE"
    case NIRES => "NIRES"
    case NIRESim => "NIRESim"
    case LRISb => "LRISb"
    case LRISr => "LRISr"
    case ESI => "ESI"
  }

  /** NIRES and NIRESim override `set_bright`/`set_faint`; the others use the base versions. */
  predicate OverridesPresets(kind: Kind)
  {
    kind == NIRES || kind == NIRESim
  }

  /** Python list indexing `xs[index]`: negative indices count from the end; others raise IndexError. */
  function PyIndex(len: nat, index: int): (r: Option<nat>)
    ensures r.Some? <==> -(len as int) <= index < len
    ensures r.Some? ==> r.value < len && (r.value == index || r.value == index + len)
  {
    if 0 <= index < len then Some(index)
    else if -(len as int) <= index < 0 then Some(len + index)
    else None
  }

  /** The renderings of the binnings the subclasses offer. */
  lemma OfferedRenderings()
    ensures BinningStr((1, 1)) == "1x1" && BinningStr((1, 2)) == "1x2"
    ensures BinningStr((2, 1)) == "2x1" && BinningStr((2, 2)) == "2x2"
  {
    assert IntStr(1) == "1" && IntStr(2) == "2";
  }

  /** Every entry of every subclass's binning list is accepted when it is selected. */
  lemma BinningEntriesParse(kind: Kind, date: string, i: nat)
    requires i < |ConfigOf(kind, date).binnings|
    ensures var e := ConfigOf(kind, date).binnings[i];
      ParseBinningText(e).Some? && BinningStr(ParseBinningText(e).value) == e
  {
    var e := ConfigOf(kind, date).binnings[i];
    assert e in {"1x1", "1x2", "2x1", "2x2"};
    OfferedRenderings();
    var b := if e == "1x1" then (1, 1) else if e == "1x2" then (1, 2) else if e == "2x1" then (2, 1) else (2, 2);
    assert BinningStr(b) == e;
    BinningStrParses(b.0, b.1);
  }

  /** The input `set_binning` receives: a string, a list/tuple of integers, or anything else. */
  datatype BinningRequest = Text(s: string) | Pair(items: seq<int>) | Other

  /** What `set_binning` did: applied it, printed "not supported", or raised. */
  datatype BinningOutcome = Applied | NotSupported | Unreadable

  /**
   * The first half of `set_binning`: a string is parsed as "AxB", a list or
   * tuple is unpacked into its two elements, and anything else, like a
   * malformed string or a list of the wrong length, denotes no binning
   * (the source then reaches the membership test with `binX`/`binY`
   * unbound or still strings, and raises).
   */
  function RequestedBinning(req: BinningRequest): Option<(int, int)>
  {
    match req
    case Text(s) => ParseBinningText(s)
    case Pair(items) => if |items| == 2 then Some((items[0], items[1])) else None
    case Other => None
  }

  /**
   * A request denotes a binning exactly when it is digits, one 'x' or 'X',
   * digits (then the values of the two digit runs) or a list/tuple of two
   * integers (then those two).
   */
  lemma RequestedBinningMeaning(req: BinningRequest)
    ensures RequestedBinning(req).Some? <==>
      (req.Text? && exists i :: SeparatorAt(req.s, i)) || (req.Pair? && |req.items| == 2)
    ensures req.Text? ==> forall i :: SeparatorAt(req.s, i) ==>
      RequestedBinning(req) == Some((DigitsValue(req.s[..i]), DigitsValue(req.s[i + 1..])))
    ensures req.Pair? && RequestedBinning(req).Some? ==>
      RequestedBinning(req).value == (req.items[0], req.items[1])
  {
  }

  lemma TwoByOneRequest()
    ensures RequestedBinning(Text("2x1")) == Some((2, 1))
  {
    assert DigitsValue("1") == 1 && DigitsValue("2") == 2;
    assert SeparatorAt("2x1", 1) && "2x1"[..1] == "2" && "2x1"[2..] == "1";
  }

  lemma UpperTwoByTwoRequest()
    ensures RequestedBinning(Text("2X2")) == Some((2, 2))
  {
    assert DigitsValue("2") == 2;
    assert SeparatorAt("2X2", 1) && "2X2"[..1] == "2" && "2X2"[2..] == "2";
  }

  /** No subclass lists a binning with a minus sign. */
  lemma NoMinusInBinnings(kind: Kind, date: string)
    ensures forall e <- ConfigOf(kind, date).binnings :: '-' !in e
  {
  }

  /** A negative part renders with a minus sign. */
  lemma NegativeRendering(b: (int, int))
    ensures b.0 < 0 || b.1 < 0 ==> '-' in BinningStr(b)
  {
    var r := BinningStr(b);
    if b.0 < 0 {
      assert r[0] == '-';
    } else if b.1 < 0 {
      assert r[|IntStr(b.0)| + 1] == '-';
    }
  }

  /** Only a non-negative binning renders to a listed entry. */
  lemma ListedBinningNonNegative(kind: Kind, date: string, b: (int, int))
    ensures BinningStr(b) in ConfigOf(kind, date).binnings ==> b.0 >= 0 && b.1 >= 0
  {
    NoMinusInBinnings(kind, date);
    NegativeRendering(b);
  }

  /** LRIS Blue offers "2x2" but not "2x1". */
  lemma LrisBlueOffers(date: string)
    ensures BinningStr((2, 1)) !in ConfigOf(LRISb, date).binnings
    ensures BinningStr((2, 2)) in ConfigOf(LRISb, date).binnings
  {
    OfferedRenderings();
    var offered := ConfigOf(LRISb, date).binnings;
    assert offered == ["1x1", "1x2", "2x2"];
    assert "2x1"[0] != "1x1"[0] && "2x1"[0] != "1x2"[0] && "2x1"[2] != "2x2"[2];
  }

  /** One line `start_sequence` prints per iteration: "Running <script> (<i> of <n>)". */
  datatype SequenceStep = Running(script: string, step: int, total: int)

  /** The instrument's mutable fields, as one value. */
  datatype Fields = Fields(
    frameno: nat,
    itime: real,
    objectName: string,
    binning: (int, int),
    sampmode: int,
    coadds: int,
    script: string,
    repeats: int)

  class Instrument {
    const kind: Kind
    const date: string
    const config: Config

    var frameno: nat
    var itime: real
    var objectName: string
    var binning: (int, int)
    var sampmode: int
    var coadds: int
    var script: string
    var repeats: int

    /**
     * The invariants the GUI relies on: the current binning and script are
     * in the instrument's lists (it calls `.index()` on them) and the
     * sampling mode is allowed (it looks its name up in `sampmode_trans`).
     */
    ghost predicate Valid()
      reads this
    {
      && config == ConfigOf(kind, date)
      && frameno >= 1
      && BinningStr(binning) in config.binnings
      && script in config.scripts
      && sampmode in config.allowedSampmodes
    }

    function State(): Fields
      reads this
    {
      Fields(frameno, itime, objectName, binning, sampmode, coadds, script, repeats)
    }

    constructor (kind: Kind, date: string)
      ensures Valid()
      ensures this.kind == kind && this.date == date
      ensures State() == Fields(1, 1.0, "objectname", InitialBinning,
                                ConfigOf(kind, date).initialSampmode, 1, InitialScript, 1)
    {
      OfferedRenderings();
      this.kind := kind;
      this.date := date;
      this.config := ConfigOf(kind, date);
      frameno := 1;
      itime := 1.0;
      objectName := "objectname";
      binning := InitialBinning;
      sampmode := ConfigOf(kind, date).initialSampmode;
      coadds := 1;
      script := InitialScript;
      repeats := 1;
    }

    /**
     * `get_filename`: the instrument's base name, then the current frame
     * number as `{frameno:04d}` renders it (`FrameDigits`), then ".fits".
     */
    function Filename(): (f: string)
      reads this
      ensures |f| >= |config.basename| + 4 + 5
      ensures f[..|config.basename|] == config.basename && f[|f| - 5..] == ".fits"
      ensures f[|config.basename|..|f| - 5] == FrameDigits(frameno)
    {
      FrameFileName(config.basename, frameno)
    }

    /**
     * `binning_as_str`: on a valid instrument it is one of the listed
     * binnings, so the GUI's `.index()` finds it; a non-negative binning
     * parses back from it.
     */
    function BinningAsStr(): (r: string)
      reads this
      ensures Valid() ==> r in config.binnings
      ensures Valid() ==> binning.0 >= 0 && binning.1 >= 0
      ensures binning.0 >= 0 && binning.1 >= 0 ==> ParseBinningText(r) == Some(binning)
    {
      ListedBinningNonNegative(kind, date, binning);
      if binning.0 >= 0 && binning.1 >= 0 then
        BinningStrParses(binning.0, binning.1);
        BinningStr(binning)
      else
        BinningStr(binning)
    }

    method SetObject(name: string)
      requires Valid()
      modifies this
      ensures Valid()
      ensures State() == old(State()).(objectName := name)
    {
      objectName := name;
    }

    method SetItime(t: real)
      requires Valid()
      modifies this
      ensures Valid()
      ensures State() == old(State()).(itime := t)
    {
      itime := t;
    }

    /**
     * `set_binning`: a request whose rendering is in the instrument's list
     * becomes the binning; a well-formed one that is not listed changes
     * nothing; a malformed one raises in the source and changes nothing.
     */
    method SetBinning(req: BinningRequest) returns (outcome: BinningOutcome)
      requires Valid()
      modifies this
      ensures Valid()
      ensures outcome == Unreadable <==> RequestedBinning(req).None?
      ensures outcome == Applied <==>
        RequestedBinning(req).Some? && BinningStr(RequestedBinning(req).value) in config.binnings
      ensures outcome == Applied ==>
        State() == old(State()).(binning := RequestedBinning(req).value)
      ensures outcome != Applied ==> State() == old(State())
      ensures BinningAsStr() in config.binnings
    {
      match RequestedBinning(req)
      case None =>
        outcome := Unreadable;
      case Some(b) =>
        if BinningStr(b) in config.binnings {
          binning := b;
          outcome := Applied;
        } else {
          outcome := NotSupported;
        }
    }

    /** `set_sampmode`: only an allowed mode is taken; anything else is ignored. */
    method SetSampmode(mode: int)
      requires Valid()
      modifies this
      ensures Valid()
      ensures State() == old(State()).(sampmode := if mode in config.allowedSampmodes then mode else old(sampmode))
      ensures sampmode in SampmodeNames
    {
      if mode in config.allowedSampmodes {
        sampmode := mode;
      }
    }

    method SetCoadds(n: int)
      requires Valid()
      modifies this
      ensures Valid()
      ensures State() == old(State()).(coadds := n)
    {
      coadds := n;
    }

    method SetRepeats(n: int)
      requires Valid()
      modifies this
      ensures Valid()
      ensures State() == old(State()).(repeats := n)
    {
      repeats := n;
    }

    /** `cb_set_script`: take the script at a (Python) index of the instrument's list. */
    method SelectScript(index: int) returns (ok: bool)
      requires Valid()
      modifies this
      ensures Valid()
      ensures ok <==> -|config.scripts| <= index < |config.scripts|
      ensures ok ==> State() == old(State()).(script := config.scripts[PyIndex(|config.scripts|, index).value])
      ensures !ok ==> State() == old(State())
    {
      match PyIndex(|config.scripts|, index)
      case None =>
        ok := false;
      case Some(i) =>
        script := config.scripts[i];
        ok := true;
    }

    /** `cb_set_binning`: pass the entry at a (Python) index of the binning list to `set_binning`. */
    method SelectBinning(index: int) returns (ok: bool)
      requires Valid()
      modifies this
      ensures Valid()
      ensures ok <==> -|config.binnings| <= index < |config.binnings|
      ensures ok ==> State() == old(State()).(binning := binning)
      ensures ok ==> ParseBinningText(config.binnings[PyIndex(|config.binnings|, index).value]) == Some(binning)
      ensures ok ==> BinningAsStr() == config.binnings[PyIndex(|config.binnings|, index).value]
      ensures !ok ==> State() == old(State())
    {
      match PyIndex(|config.binnings|, index)
      case None =>
        ok := false;
      case Some(i) =>
        BinningEntriesParse(kind, date, i);
        var outcome := SetBinning(Text(config.binnings[i]));
        ok := true;
    }

    /** `start_exposure`: report the file the frame is written to, then advance the frame number. */
    method StartExposure() returns (written: string)
      requires Valid()
      modifies this
      ensures Valid()
      ensures written == old(Filename())
      ensures State() == old(State()).(frameno := old(frameno) + 1)
    {
      written := Filename();
      frameno := frameno + 1;
    }

    /** `abort_exposure`: same effect on the state as `start_exposure`. */
    method AbortExposure() returns (written: string)
      requires Valid()
      modifies this
      ensures Valid()
      ensures written == old(Filename())
      ensures State() == old(State()).(frameno := old(frameno) + 1)
    {
      written := Filename();
      frameno := frameno + 1;
    }

    /**
     * `start_sequence`: one "Running" line per repeat, numbered from 1, and
     * none when `repeats` is zero or negative; no field changes.
     */
    method StartSequence() returns (steps: seq<SequenceStep>)
      ensures |steps| == if repeats > 0 then repeats else 0
      ensures forall i :: 0 <= i < |steps| ==> steps[i] == Running(script, i + 1, repeats)
    {
      steps := [];
      var i := 0;
      while i < repeats
        invariant 0 <= i <= if repeats > 0 then repeats else 0
        invariant |steps| == i
        invariant forall j :: 0 <= j < i ==> steps[j] == Running(script, j + 1, repeats)
      {
        steps := steps + [Running(script, i + 1, repeats)];
        i := i + 1;
      }
    }

    /**
     * `set_bright`: a 2 s exposure; NIRES and NIRESim also select CDS
     * readout (mode 2) and one coadd.
     */
    method SetBright()
      requires Valid()
      modifies this
      ensures Valid()
      ensures !OverridesPresets(kind) ==> State() == old(State()).(itime := 2.0)
      ensures OverridesPresets(kind) ==>
        State() == old(State()).(itime := 2.0, sampmode := 2, coadds := 1)
    {
      SetItime(2.0);
      if OverridesPresets(kind) {
        SetSampmode(2);
        SetCoadds(1);
      }
    }

    /**
     * `set_faint`: a 120 s exposure; NIRES and NIRESim also select MCDS16
     * readout (mode 3) and three coadds.
     */
    method SetFaint()
      requires Valid()
      modifies this
      ensures Valid()
      ensures !OverridesPresets(kind) ==> State() == old(State()).(itime := 120.0)
      ensures OverridesPresets(kind) ==>
        State() == old(State()).(itime := 120.0, sampmode := 3, coadds := 3)
    {
      SetItime(120.0);
      if OverridesPresets(kind) {
        SetSampmode(3);
        SetCoadds(3);
      }
    }
  }

  /**
   * On a new LRIS Blue instrument "2x1" is well formed but not offered, so
   * `set_binning` reports it unsupported and the binning stays 1x1.
   */
  method LrisBlueRejectsTwoByOne(date: string) returns (outcome: BinningOutcome, binning: (int, int))
    ensures outcome == NotSupported && binning == (1, 1)
  {
    var lris := new Instrument(LRISb, date);
    LrisBlueOffers(date);
    TwoByOneRequest();
    var request := Text("2x1");
    outcome := lris.SetBinning(request);
    binning := lris.binning;
  }

  /**
   * On a new LRIS Blue instrument "2X2" (upper-case separator) names the
   * offered "2x2", so `set_binning` applies it.
   */
  method LrisBlueAcceptsTwoByTwo(date: string) returns (outcome: BinningOutcome, binning: (int, int))
    ensures outcome == Applied && binning == (2, 2)
  {
    var lris := new Instrument(LRISb, date);
    LrisBlueOffers(date);
    UpperTwoByTwoRequest();
    var request := Text("2X2");
    outcome := lris.SetBinning(request);
    binning := lris.binning;
  }
}
