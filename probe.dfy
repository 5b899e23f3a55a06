/**
 * Reading an image's size: the probe command prints "WxH", which the script
 * splits on 'x' and converts with `int()`, and the probe loop that fills the
 * `sizes` list in the order of the folder's files.
 */
module Probe {
  import opened Wrappers
  import opened Numerals

  /** Pixel width and height as the probe reports them. */
  datatype Dims = Dims(w: int, h: int)

  /** Why a probe fails; each of these propagates out of the script. */
  datatype ProbeError =
    | CommandFailed(status: int)   // check_output raises on a non-zero exit
    | NotANumber(text: string)     // int() raises ValueError
    | NoSeparator                  // the [1] index raises IndexError

  /**
   * What the probe command gives back for one file: its output, or the
   * non-zero exit status on which `check_output` raises.
   */
  datatype ProbeReply = Printed(text: string) | Failed(status: int)

  /** `s.split(sep)`: the pieces between occurrences of `sep`. */
  function Split(s: string, sep: char): (parts: seq<string>)
    ensures |parts| >= 1
    decreases |s|
  {
    if s == [] then [""]
    else if s[0] == sep then [""] + Split(s[1..], sep)
    else var rest := Split(s[1..], sep); [[s[0]] + rest[0]] + rest[1..]
  }

  /** `sep.join(parts)`. */
  function Join(parts: seq<string>, sep: char): string
    requires |parts| >= 1
    decreases |parts|
  {
    if |parts| == 1 then parts[0] else parts[0] + [sep] + Join(parts[1..], sep)
  }

  /** Position of the first `c` in `s`, or `|s|` when there is none. */
  function IndexOf(s: string, c: char): (k: nat)
    ensures k <= |s| && c !in s[..k]
    ensures k < |s| ==> s[k] == c
    decreases |s|
  {
    if s == [] then 0 else if s[0] == c then 0 else 1 + IndexOf(s[1..], c)
  }

  /** Splitting and joining again gives back the text; no piece holds `sep`. */
  lemma {:induction false} SplitJoin(s: string, sep: char)
    ensures Join(Split(s, sep), sep) == s
    ensures forall i :: 0 <= i < |Split(s, sep)| ==> sep !in Split(s, sep)[i]
    decreases |s|
  {
    if s != [] {
      SplitJoin(s[1..], sep);
      var rest := Split(s[1..], sep);
      if s[0] == sep {
        assert Split(s, sep)[1..] == rest;
      } else {
        var parts := Split(s, sep);
        assert parts[1..] == rest[1..];
        if |rest| > 1 {
          assert Join(rest, sep) == rest[0] + [sep] + Join(rest[1..], sep);
        }
        forall i | 0 <= i < |parts| ensures sep !in parts[i] {
          if i > 0 { assert parts[i] == rest[i]; }
        }
      }
    }
  }

  /**
   * The first piece is the text before the first `sep`; the remaining pieces
   * are those of the text after it.
   */
  lemma {:induction false} SplitAtFirst(s: string, sep: char)
    ensures var k := IndexOf(s, sep);
      Split(s, sep)[0] == s[..k] &&
      (k == |s| <==> |Split(s, sep)| == 1) &&
      (k < |s| ==> Split(s, sep)[1..] == Split(s[k + 1..], sep))
    decreases |s|
  {
    if s != [] && s[0] != sep {
      SplitAtFirst(s[1..], sep);
      var k := IndexOf(s[1..], sep);
      assert s[..1 + k] == [s[0]] + s[1..][..k];
      if k < |s[1..]| {
        assert s[1 + k + 1..] == s[1..][k + 1..];
      }
    }
  }

  /**
   * The WxH parse: `w = int(out.split("x")[0])`, then
   * `h = int(out.split("x")[1])`, with the errors in the order Python
   * evaluates them.
   */
  function ParseDims(out: string): Result<Dims, ProbeError> {
    var parts := Split(out, 'x');
    match ParseInt(parts[0])
    case None => Err(NotANumber(parts[0]))
    case Some(w) =>
      if |parts| < 2 then Err(NoSeparator)
      else match ParseInt(parts[1])
        case None => Err(NotANumber(parts[1]))
        case Some(h) => Ok(Dims(w, h))
  }

  /** The text before the first 'x'. */
  function WidthText(out: string): string {
    out[..IndexOf(out, 'x')]
  }

  /** The text after the first 'x' up to the next one. */
  function HeightText(out: string): string
    requires 'x' in out
  {
    var rest := out[IndexOf(out, 'x') + 1..];
    rest[..IndexOf(rest, 'x')]
  }

  /**
   * The parse succeeds exactly when the output holds an 'x', the text before
   * it is an integer and the text between it and the next 'x' is one; those
   * are the width and the height.
   */
  lemma ParseDimsFields(out: string)
    ensures ParseDims(out).Ok? <==>
      'x' in out && ParseInt(WidthText(out)).Some? && ParseInt(HeightText(out)).Some?
    ensures ParseDims(out).Ok? ==>
      ParseDims(out).value == Dims(ParseInt(WidthText(out)).value, ParseInt(HeightText(out)).value)
  {
    var k := IndexOf(out, 'x');
    SplitAtFirst(out, 'x');
    if k < |out| {
      SplitAtFirst(out[k + 1..], 'x');
      assert 'x' in out by { assert out[k] == 'x'; }
    } else {
      assert out[..k] == out;
    }
  }

  /** The probe's own output format reads back as the same size. */
  lemma ParsePrinted(d: Dims)
    ensures ParseDims(Show(d.w) + "x" + Show(d.h)) == Ok(d)
  {
    var out := Show(d.w) + "x" + Show(d.h);
    NoXInShow(d.w);
    NoXInShow(d.h);
    var k := |Show(d.w)|;
    assert IndexOf(out, 'x') == k by { IndexOfAfter(out, k); }
    assert WidthText(out) == Show(d.w);
    var rest := out[k + 1..];
    assert rest == Show(d.h);
    assert IndexOf(rest, 'x') == |rest| by { IndexOfAfter(rest, |rest|); }
    assert HeightText(out) == Show(d.h);
    ParseShow(d.w);
    ParseShow(d.h);
    ParseDimsFields(out);
  }

  lemma NoXInShow(n: int)
    ensures 'x' !in Show(n)
  {
  }

  lemma {:induction false} IndexOfAfter(s: string, k: nat)
    requires k <= |s| && 'x' !in s[..k] && (k < |s| ==> s[k] == 'x')
    ensures IndexOf(s, 'x') == k
    decreases k
  {
    if k > 0 {
      assert s[0] == s[..k][0];
      assert s[1..][..k - 1] == s[..k][1..];
      IndexOfAfter(s[1..], k - 1);
    }
  }

  /** One probe: the command's output, parsed. */
  function ProbeOne(reply: ProbeReply): Result<Dims, ProbeError> {
    match reply
    case Failed(status) => Err(CommandFailed(status))
    case Printed(text) => ParseDims(text)
  }

  /** The size of a file as the probe loop obtains it, or why it cannot. */
  type Measure = string -> Result<Dims, ProbeError>

  /** Running the probe command on a file and parsing what it prints. */
  function Measured(probe: string -> ProbeReply): Measure {
    f => ProbeOne(probe(f))
  }

  /** The file whose probe failed, by its position in the folder's list. */
  datatype ProbeFailure = ProbeFailure(index: nat, path: string, error: ProbeError)

  /**
   * The probe loop over a folder's files: the sizes in file order, or the
   * first failure, which ends the loop.
   */
  function ProbeAll(files: seq<string>, measure: Measure): (r: Result<seq<Dims>, ProbeFailure>)
    ensures r.Ok? ==> |r.value| == |files|
    decreases |files|
  {
    if files == [] then Ok([])
    else
      var last := |files| - 1;
      match ProbeAll(files[..last], measure)
      case Err(e) => Err(e)
      case Ok(sizes) =>
        match measure(files[last])
        case Err(e) => Err(ProbeFailure(last, files[last], e))
        case Ok(d) => Ok(sizes + [d])
  }

  /**
   * `sizes` runs parallel to the file list, `sizes[i]` being the probe of
   * `files[i]`; the loop succeeds exactly when every probe does.
   */
  lemma {:induction false} ProbeAllParallel(files: seq<string>, measure: Measure)
    ensures ProbeAll(files, measure).Ok? <==>
      forall i :: 0 <= i < |files| ==> measure(files[i]).Ok?
    ensures ProbeAll(files, measure).Ok? ==>
      |ProbeAll(files, measure).value| == |files| &&
      forall i :: 0 <= i < |files| ==> measure(files[i]) == Ok(ProbeAll(files, measure).value[i])
    decreases |files|
  {
    if files != [] {
      var last := |files| - 1;
      var init := files[..last];
      ProbeAllParallel(init, measure);
      assert forall i :: 0 <= i < last ==> init[i] == files[i];
      var before := ProbeAll(init, measure);
      var one := measure(files[last]);
      if before.Ok? && one.Ok? {
        assert ProbeAll(files, measure) == Ok(before.value + [one.value]);
      } else if before.Err? {
        var i :| 0 <= i < last && measure(init[i]).Err?;
        assert measure(files[i]).Err?;
      }
    }
  }

  /** A failure names the first file whose probe fails, and why. */
  lemma {:induction false} ProbeAllFirstFailure(files: seq<string>, measure: Measure)
    requires ProbeAll(files, measure).Err?
    ensures var f := ProbeAll(files, measure).error;
      f.index < |files| && f.path == files[f.index] &&
      measure(files[f.index]) == Err(f.error) &&
      forall i :: 0 <= i < f.index ==> measure(files[i]).Ok?
    decreases |files|
  {
    var last := |files| - 1;
    var init := files[..last];
    assert forall i :: 0 <= i < last ==> init[i] == files[i];
    if ProbeAll(init, measure).Err? {
      ProbeAllFirstFailure(init, measure);
    } else {
      ProbeAllParallel(init, measure);
    }
  }

  /** A failure in a prefix of the list is the failure of the whole list. */
  lemma {:induction false} ProbeAllStopsAtFailure(files: seq<string>, n: nat, measure: Measure)
    requires n <= |files| && ProbeAll(files[..n], measure).Err?
    ensures ProbeAll(files, measure) == ProbeAll(files[..n], measure)
    decreases |files| - n
  {
    if n < |files| {
      assert files[..n + 1][..n] == files[..n];
      ProbeAllStopsAtFailure(files, n + 1, measure);
    } else {
      assert files[..n] == files;
    }
  }

  /** The probe loop of one folder, appending to `sizes` file by file. */
  method ProbeFolder(files: seq<string>, measure: Measure)
    returns (r: Result<seq<Dims>, ProbeFailure>)
    ensures r == ProbeAll(files, measure)
  {
    var sizes: seq<Dims> := [];
    var i := 0;
    while i < |files|
      invariant i <= |files|
      invariant ProbeAll(files[..i], measure) == Ok(sizes)
    {
      var f := files[i];
      assert files[..i + 1][..i] == files[..i];
      var reply := measure(f);
      if reply.Err? {
        ProbeAllStopsAtFailure(files, i + 1, measure);
        return Err(ProbeFailure(i, f, reply.error));
      }
      sizes := sizes + [reply.value];
      i := i + 1;
    }
    assert files[..i] == files;
    return Ok(sizes);
  }
}
