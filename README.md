# XPOSE instrument model in Dafny

XPOSE is a plugin for an astronomical image viewer that lets an observer set
up and trigger mock exposures on one of the Keck Observatory instruments
(HIRES, MOSFIRE, NIRES and its slit-viewing camera, LRIS Blue and Red, ESI).
Behind its form sits a small instrument object: a frame counter, the file
base name, exposure time, object name, binning, sampling mode, coadds, the
observation script and its number of repeats, plus per-instrument tables of
allowed binnings, scripts and sampling modes. This project models that
object and the choice of instrument from the host name, and proves what the
plugin relies on.

- `options.dfy`: `Option`.
- `decimal.dfy` (module `Decimal`): Python's `f"{n:d}"` and `int(s)` on
  digit strings, the `{frameno:04d}` padding and the exposure file name.
- `binning.dfy` (module `Binning`): `str.lower`, `str.split('x')` and
  `str.join`, the "AxB" parse of `set_binning`, and `binning_as_str`'s
  rendering.
- `instruments.dfy` (module `Instruments`): the seven subclasses as one
  `Kind` and a `Config` record (`ConfigOf`), and the class `Instrument`,
  whose methods update its fields in place. `Valid()` is the invariant the
  GUI depends on: the binning's rendering is in `binnings` and the script is
  in `scripts`, because the GUI calls `.index()` on both. The sampling mode is
  allowed, so `sampmode_trans` has a name for it. Every method keeps it.
  `State()` gathers the fields so that each method can say its whole new
  state.
- `hostname.dfy` (module `HostSelection`): the host-name table with its
  HIRES default, and the `if/elif` chain that picks the subclass.

The UTC date in each subclass's base name is the constructor parameter
`date`, and the host name is a parameter of `SelectInstrument`. Printed
messages have no effect in the model, with two exceptions. `StartExposure`
and `AbortExposure` return the file name they report. `StartSequence`
returns its per-repeat "Running" lines.

In the source, the malformed-input paths of `set_binning` print a message
and then fall through to the membership test with `binX`/`binY` unbound or
still strings, which raises. The model returns `Unreadable` there and
changes nothing. It does not invent a recovery.

## Model

| member | source | states |
|---|---|---|
| `Decimal.NatStr` | XPOSE_plugin/XPOSE.py:583 | `{n:d}` of a natural number is a non-empty digit string that starts with '0' exactly when the number is 0 |
| `Decimal.IntStr` | XPOSE_plugin/XPOSE.py:602 | `{n:d}` of any integer starts with '-' exactly for negative values and is all digits otherwise; `IntStrReadsBack` fixes the digits |
| `Decimal.IntStrReadsBack` | XPOSE_plugin/XPOSE.py:602 | the digits of `{n:d}` (after the minus sign for `n < 0`) have no superfluous leading zero, and `int()` reads them back as `n`, or as `-n` for `n < 0` |
| `Decimal.ParseNat` | XPOSE_plugin/XPOSE.py:590-591 | `int()` of a digit string succeeds exactly when the string is non-empty and all digits, and the value is below `10^len`; `ParseNatPadded` and `DigitsPadded` fix the value |
| `Decimal.ParseNatPadded` | XPOSE_plugin/XPOSE.py:590-591 | `int()` ignores leading zeros: any number of '0's followed by the rendering of `n` reads as `n` (so "01" reads as 1) |
| `Decimal.DigitsPadded` | XPOSE_plugin/XPOSE.py:590-591 | every non-empty digit string is leading zeros followed by the rendering of its value, so `ParseNatPadded` covers every string `int()` accepts |
| `Decimal.DigitsValueBound` | XPOSE_plugin/XPOSE.py:590-591 | the value of a run of `k` digits is below `10^k` |
| `Decimal.ParseNatStr` | XPOSE_plugin/XPOSE.py:590-591 | `int()` applied to the rendering of `n` gives `n` back |
| `Decimal.NatStrOfCanonical` | XPOSE_plugin/XPOSE.py:590-591 | a digit string without a superfluous leading zero is exactly the rendering of the value `int()` reads from it |
| `Decimal.NatStrWidth` | XPOSE_plugin/XPOSE.py:569 | the rendering of `n` fits in `k` characters exactly when `n < 10^k` |
| `Decimal.FrameDigits` | XPOSE_plugin/XPOSE.py:569 | `{frameno:04d}` is all digits, denotes `frameno`, is at least 4 characters long and exactly 4 while `frameno < 10000`; from 10000 on it is the unpadded rendering |
| `Decimal.FrameFileName` | XPOSE_plugin/XPOSE.py:568-569 | the file name is the base name, then exactly `{frameno:04d}` (`FrameDigits`: all digits, reading back as the frame number), then ".fits"; it is 4 + 5 characters longer than the base name exactly while `frameno < 10000` |
| `Decimal.FileNameInjective` | XPOSE_plugin/XPOSE.py:568-569 | two frame numbers that give the same file name under one base name are equal, so every exposure is reported under a new name |
| `Binning.Lower` | XPOSE_plugin/XPOSE.py:589 | ASCII `lower()`: the length is kept, no upper-case ASCII letter is left, each upper-case letter becomes the lower-case letter at the same alphabet position, and every other character is unchanged |
| `Binning.Split` | XPOSE_plugin/XPOSE.py:589 | `split('x')` yields at least one piece and no piece contains the separator |
| `Binning.JoinSplit` | XPOSE_plugin/XPOSE.py:589 | joining the pieces of `split` with the separator gives the string back |
| `Binning.SplitJoin` | XPOSE_plugin/XPOSE.py:589 | splitting the join of separator-free pieces gives the pieces back |
| `Binning.ParseBinningText` | XPOSE_plugin/XPOSE.py:589-591 | `input.lower().split('x')` into two fields read by `int()` succeeds exactly on digits, one 'x' or 'X', digits, and then yields the values of the two digit runs |
| `Binning.BinningStr` | XPOSE_plugin/XPOSE.py:583 | for non-negative parts the rendering is the first part's digits, a lower-case 'x', then the second part's digits |
| `Binning.BinningStrParses` | XPOSE_plugin/XPOSE.py:582-591 | the string branch of `set_binning` reads `binning_as_str`'s rendering of `(A,B)` back as `(A,B)` |
| `Binning.ParsedBinningRendering` | XPOSE_plugin/XPOSE.py:589-603 | every parsed binning has non-negative parts and renders to a string that parses back to it; when neither field has a superfluous leading zero the rendering is the lower-cased input |
| `Binning.SeparatorCaseInsensitive` | XPOSE_plugin/XPOSE.py:589 | "AXB" parses exactly as "AxB" |
| `Instruments.ConfigOf` | XPOSE_plugin/XPOSE.py:669-794 | every subclass lists the script "stare" and the binning "1x1" and allows its initial sampling mode; optical instruments allow only mode 1 and start there, IR instruments allow 2 and 3 and start at 2; every allowed mode has a `sampmode_trans` name; the base name is a prefix, the date and "_" |
| `Instruments.PyIndex` | XPOSE_plugin/XPOSE.py:531 | a list index succeeds exactly for `-len <= index < len` and then denotes an in-range position: the index itself, or `index + len` for a negative index |
| `Instruments.BinningEntriesParse` | XPOSE_plugin/XPOSE.py:494 | every entry of every subclass's binning list parses, and its parse renders back to the entry itself |
| `Instruments.ListedBinningNonNegative` | XPOSE_plugin/XPOSE.py:602 | only a binning with two non-negative parts renders to an entry of a subclass's list, so the membership test never admits a negative binning |
| `Instruments.RequestedBinningMeaning` | XPOSE_plugin/XPOSE.py:587-600 | a request yields a binning exactly when it is a string of digits, one 'x' or 'X', digits (then the two digit values) or a list/tuple of exactly two integers (then those two) |
| `Instruments.LrisBlueRejectsTwoByOne` | XPOSE_plugin/XPOSE.py:771 | on a new LRIS Blue instrument `set_binning("2x1")` is reported unsupported and the binning stays (1,1), because "2x1" is not in its list |
| `Instruments.LrisBlueAcceptsTwoByTwo` | XPOSE_plugin/XPOSE.py:771 | on a new LRIS Blue instrument `set_binning("2X2")` is applied and the binning becomes (2,2) |
| `Instruments.Instrument.Filename` | XPOSE_plugin/XPOSE.py:568-569 | `get_filename` is the instrument's base name, then exactly `{frameno:04d}` of the current frame number (`FrameDigits`), then ".fits" |
| `Instruments.Instrument.BinningAsStr` | XPOSE_plugin/XPOSE.py:582-583 | on a valid instrument the binning is non-negative and `binning_as_str()` is one of the listed binnings, and a non-negative binning parses back from it |
| `Instruments.Instrument.constructor` | XPOSE_plugin/XPOSE.py:550-565 | a new instrument is at frame 1, itime 1, object "objectname", binning (1,1), its subclass's initial sampling mode, 1 coadd, script "stare", 1 repeat, and satisfies the invariant |
| `Instruments.Instrument.SetObject` | XPOSE_plugin/XPOSE.py:572-574 | sets the object name and nothing else |
| `Instruments.Instrument.SetItime` | XPOSE_plugin/XPOSE.py:577-579 | sets the exposure time and nothing else |
| `Instruments.Instrument.SetBinning` | XPOSE_plugin/XPOSE.py:586-606 | a request whose rendering is in `binnings` becomes the binning; a well-formed unlisted one and a malformed one change nothing (the latter reported as `Unreadable`); afterwards `binning_as_str()` is in `binnings` |
| `Instruments.Instrument.SetSampmode` | XPOSE_plugin/XPOSE.py:609-613 | takes the mode exactly when it is allowed and otherwise changes nothing; the mode keeps a `sampmode_trans` name |
| `Instruments.Instrument.SetCoadds` | XPOSE_plugin/XPOSE.py:616-618 | sets the coadds and nothing else |
| `Instruments.Instrument.SetRepeats` | XPOSE_plugin/XPOSE.py:621-623 | sets the repeats and nothing else |
| `Instruments.Instrument.SelectScript` | XPOSE_plugin/XPOSE.py:530-531 | the script becomes the list entry at the index when the index is valid (negative counting from the end) and the script stays in the list; an invalid index changes nothing |
| `Instruments.Instrument.SelectBinning` | XPOSE_plugin/XPOSE.py:493-495 | selecting a valid index always succeeds: the new binning is the parse of that entry, `binning_as_str()` then equals the entry, and no other field changes |
| `Instruments.Instrument.StartExposure` | XPOSE_plugin/XPOSE.py:626-630 | reports `get_filename()` of the state before the call, then increases the frame number by exactly 1 and changes nothing else |
| `Instruments.Instrument.AbortExposure` | XPOSE_plugin/XPOSE.py:644-648 | same as starting an exposure: reports `get_filename()` of the old state, frame number + 1, nothing else changes |
| `Instruments.Instrument.StartSequence` | XPOSE_plugin/XPOSE.py:633-637 | runs exactly `repeats` iterations (none when `repeats <= 0`), the i-th reporting the script, i counted from 1, and the total; changes no field |
| `Instruments.Instrument.SetBright` | XPOSE_plugin/XPOSE.py:725-729 | NIRES and NIRESim end with itime 2, mode 2 (CDS), 1 coadd and nothing else changed; the base version (lines 659-661, used by all others) changes only itime, to 2 |
| `Instruments.Instrument.SetFaint` | XPOSE_plugin/XPOSE.py:732-736 | NIRES and NIRESim end with itime 120, mode 3 (MCDS16), 3 coadds and nothing else changed; the base version (lines 664-666) changes only itime, to 120 |
| `HostSelection.InstrumentName` | XPOSE_plugin/XPOSE.py:43-50 | the looked-up name is one of the table's instruments or the default, HIRES |
| `HostSelection.KindNamed` | XPOSE_plugin/XPOSE.py:52-65 | the `if/elif` chain creates subclass `k` exactly when the looked-up name is `k`'s class name |
| `HostSelection.SelectInstrument` | XPOSE_plugin/XPOSE.py:52-65 | the `if/elif` chain always matches the looked-up name, so an instrument is always created, and its name is the looked-up one |
| `HostSelection.SelectionByHost` | XPOSE_plugin/XPOSE.py:33-50 | each listed host selects its instrument (e.g. "nuu" MOSFIRE, "vm-esi" ESI), every unlisted host selects HIRES, and no host selects LRIS Blue, LRIS Red or the NIRES slit camera |

## Left out

- GUI construction, widget updates and event wiring (XPOSE_plugin/XPOSE.py:100-402 and the widget halves of lines 481-532): toolkit glue. Of the callbacks only the instrument updates are modelled (`SelectScript`, `SelectBinning`; the others call a setter directly).
- Plugin lifecycle hooks, preference loading and the instruction text: host-runtime concerns.
- `XPOSE/__init__.py` and `setup.py`: registration and packaging metadata only.
- Printed messages: no observable effect, except the file name and sequence lines returned as described above.
- `get_DWRN2LV`, `get_RESN2LV` and `fill_dewar` of HIRES: clock-driven floating-point mocks and a print.
- `abort_afterframe` and `abort_afterrepeat`: they only print. The GUI's `abort_immediately` does not exist on the instrument class.
- `goi`: it calls a `take_exposure` that no class defines, so it always raises.
- The wall clock: the date part of the base name is the parameter `date`. `gethostname()`: the host name is a parameter.
- `itime` is a real number, not an IEEE float; its one-decimal formatting is not modelled.
- `int()` is restricted to non-empty ASCII digit strings: the signs, surrounding whitespace, underscores and non-ASCII digits Python also accepts are read as malformed. `lower()` maps only ASCII letters.
- `set_binning` with a list or tuple: the model takes a sequence of integers. Python's booleans are integers, so in the source `set_binning((True, True))` renders "1x1" and sets the binning to `(True, True)`; floats make `{:d}` raise. The model has no booleans or floats: such lists, and inputs of other types, are all `Other`, which changes nothing.
- `AbstractInstrument` on its own (name, base name "image", allowed modes [1,2,3]): the plugin never instantiates it, so only its seven subclasses are modelled. Its defaults appear as the inherited values in `ConfigOf`. The `sampmodes` list is never read.
