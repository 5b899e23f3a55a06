/**
 * An example run: pattern `\.jpg$`, limit 1024, flat mode, a
 * directory holding a.jpg (2000x1000), b.png (500x500) and c.jpg
 * (800x1600).
 */
module Scenarios {
  import opened Wrappers
  import opened Numerals
  import opened Probe
  import opened Resize
  import opened Grouping
  import opened Batch

  /** The pattern `\.jpg$`, read as a test on the end of the name. */
  predicate JpgName(p: string) {
    |p| >= 4 && p[|p| - 4..] == ".jpg"
  }

  predicate AnyFile(p: string) {
    true
  }

  /**
   * The sizes the probe reports for the directory's files; each is what
   * `ParsePrinted` reads back from the probe's "WxH" output.
   */
  function ExampleSize(p: string): Result<Dims, ProbeError> {
    if p == "a.jpg" then Ok(Dims(2000, 1000))
    else if p == "b.png" then Ok(Dims(500, 500))
    else Ok(Dims(800, 1600))
  }

  /** A resize command that always succeeds. */
  function ExitsCleanly(c: Command): CallResult {
    Exited(0)
  }

  /** Only the two .jpg names are kept, in listing order. */
  lemma ExampleListing()
    ensures Matching(["a.jpg", "b.png", "c.jpg"], JpgName, AnyFile) == ["a.jpg", "c.jpg"]
  {
    var entries := ["a.jpg", "b.png", "c.jpg"];
    assert !JpgName("b.png") by { assert "b.png"[1..] == ".png"; }
    assert JpgName("a.jpg") by { assert "a.jpg"[1..] == ".jpg"; }
    assert JpgName("c.jpg") by { assert "c.jpg"[1..] == ".jpg"; }
    assert entries[..1][..0] == [];
    assert Matching(entries[..1], JpgName, AnyFile) == ["a.jpg"];
    assert entries[..2][..1] == entries[..1];
    assert Matching(entries[..2], JpgName, AnyFile) == ["a.jpg"];
    assert entries[..2] == entries[..|entries| - 1];
  }

  /** Both kept files are probed, in order. */
  lemma ExampleProbes()
    ensures ProbeAll(["a.jpg", "c.jpg"], ExampleSize) == Ok([Dims(2000, 1000), Dims(800, 1600)])
  {
    var listed := ["a.jpg", "c.jpg"];
    assert "c.jpg"[0] != "a.jpg"[0] && "c.jpg"[0] != "b.png"[0];
    assert ExampleSize("c.jpg") == Ok(Dims(800, 1600));
    var first: seq<string> := ["a.jpg"];
    assert listed[..1] == first && first[..0] == [];
    assert ExampleSize("a.jpg") == Ok(Dims(2000, 1000));
    assert ProbeAll(first[..0], ExampleSize) == Ok([]);
    assert [] + [Dims(2000, 1000)] == [Dims(2000, 1000)];
    assert ProbeAll(first, ExampleSize) == Ok([Dims(2000, 1000)]);
    assert listed[..|listed| - 1] == first && listed[|listed| - 1] == "c.jpg";
    assert [Dims(2000, 1000)] + [Dims(800, 1600)] == [Dims(2000, 1000), Dims(800, 1600)];
  }

  /** a.jpg is wider than tall and c.jpg taller than wide, both over 1024. */
  lemma ExampleSteps()
    ensures var steps := ResizeSteps(Here, ["a.jpg", "c.jpg"], [Dims(2000, 1000), Dims(800, 1600)], 1024, ExitsCleanly);
      steps[0].action == Resized(Convert("a.jpg", Width, 1024), Exited(0)) &&
      steps[1].action == Resized(Convert("c.jpg", Height, 1024), Exited(0)) &&
      Failures(steps) == 0
  {
    var listed := ["a.jpg", "c.jpg"];
    var sizes := [Dims(2000, 1000), Dims(800, 1600)];
    var steps := ResizeSteps(Here, listed, sizes, 1024, ExitsCleanly);
    assert steps[0] == StepFor(Here, listed, sizes, 0, 1024, ExitsCleanly);
    assert steps[1] == StepFor(Here, listed, sizes, 1, 1024, ExitsCleanly);
    assert Decide(sizes[0], 1024) == Some(Width);
    assert Decide(sizes[1], 1024) == Some(Height);
    assert steps[..1][..0] == [] && steps[..1] == [steps[0]];
    assert !StepRaised(steps[0]) && !StepRaised(steps[1]);
    assert Failures(steps[..1]) == 0;
  }

  /**
   * b.png is left out by the pattern; a.jpg has its width pinned to 1024
   * and c.jpg its height; no exception is counted.
   */
  lemma ExampleRun()
    ensures var g := Grouped(Flat(["a.jpg", "b.png", "c.jpg"]), JpgName, AnyFile);
      g.files[Here] == ["a.jpg", "c.jpg"] &&
      var r := RunOver(g.order, g.files, Settings(1024, false), [], ExampleSize, ExitsCleanly);
      r.halt == Finished && r.exceptions == 0 && |r.steps| == 2 &&
      r.steps[0].action == Resized(Convert("a.jpg", Width, 1024), Exited(0)) &&
      r.steps[1].action == Resized(Convert("c.jpg", Height, 1024), Exited(0))
  {
    ExampleListing();
    ExampleProbes();
    ExampleSteps();
    var listed := ["a.jpg", "c.jpg"];
    var sizes := [Dims(2000, 1000), Dims(800, 1600)];
    var steps := ResizeSteps(Here, listed, sizes, 1024, ExitsCleanly);
    var order := [Here];
    var files := map[Here := listed];
    var settings := Settings(1024, false);
    assert order[..0] == [];
    var start := RunOver(order[..0], files, settings, [], ExampleSize, ExitsCleanly);
    assert start == Run(Finished, [], 0, 0);
    var v := VisitFolder(Here, listed, settings, [], ExampleSize, ExitsCleanly);
    assert v == Proceed(steps, 0);
    assert RunOver(order, files, settings, [], ExampleSize, ExitsCleanly) == Advance(start, v);
  }
}
