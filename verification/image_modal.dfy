/**
 * The photo viewer's download name: the recipe name with every run of
 * white space turned into one dash, lower-cased, with `.png` appended.
 */
module ImageModal {
  import opened Text

  /** `replace(/\s+/g, '-')`: each maximal white-space run becomes a single dash. */
  function Collapse(s: string): (r: string)
    ensures |r| <= |s|
    ensures NoSpace(r)
    ensures NoSpace(s) ==> r == s
    decreases |s|
  {
    if |s| == 0 then ""
    else if IsSpace(s[0]) then
      var n := LeadingSpaces(s);
      var rest := Collapse(s[n..]);
      assert forall i :: 1 <= i < |rest| + 1 ==> ("-" + rest)[i] == rest[i - 1];
      "-" + rest
    else
      var rest := Collapse(s[1..]);
      assert forall i :: 1 <= i < |rest| + 1 ==> ([s[0]] + rest)[i] == rest[i - 1];
      assert s == [s[0]] + s[1..];
      [s[0]] + rest
  }

  /** The name part of the download. */
  function Slug(s: string): (r: string)
    ensures NoSpace(r) && |r| <= |s|
    ensures NoSpace(s) ==> r == LowerAll(s)
    ensures forall i :: 0 <= i < |r| ==> !('A' <= r[i] <= 'Z')
  {
    LowerAll(Collapse(s))
  }

  /** The `download` attribute of the link. */
  function DownloadName(recipeName: string): (r: string)
    ensures NoSpace(r)
    ensures |r| >= 4 && r[|r| - 4..] == ".png"
  {
    var s := Slug(recipeName);
    assert forall i :: |s| <= i < |s| + 4 ==> (s + ".png")[i] == ".png"[i - |s|];
    s + ".png"
  }

  /**
   * A reference definition that reads the name one character at a time:
   * `inRun` says the previous character was white space, so the dash for
   * the current run has been written.
   */
  function SlugFrom(s: string, inRun: bool): string
    decreases |s|
  {
    if |s| == 0 then ""
    else if IsSpace(s[0]) then (if inRun then "" else "-") + SlugFrom(s[1..], true)
    else [Lower(s[0])] + SlugFrom(s[1..], false)
  }

  lemma LowerAllAppend(a: string, b: string)
    ensures LowerAll(a + b) == LowerAll(a) + LowerAll(b)
  {
  }

  /** The character scan and the run-collapsing definition agree, inside a run and outside one. */
  lemma {:induction false} ScanAgrees(s: string)
    ensures SlugFrom(s, false) == Slug(s)
    ensures SlugFrom(s, true) == Slug(s[LeadingSpaces(s)..])
    decreases |s|
  {
    if |s| > 0 {
      ScanAgrees(s[1..]);
      if IsSpace(s[0]) {
        assert s[1..][LeadingSpaces(s[1..])..] == s[LeadingSpaces(s)..];
        LowerAllAppend("-", Collapse(s[LeadingSpaces(s)..]));
      } else {
        assert s[0..] == s;
        LowerAllAppend([s[0]], Collapse(s[1..]));
      }
    }
  }

  /** The download name computed by a single left-to-right pass over the recipe name. */
  method DownloadFileName(recipeName: string) returns (file: string)
    ensures file == DownloadName(recipeName)
  {
    var acc := "";
    var inRun := false;
    var i := 0;
    while i < |recipeName|
      invariant 0 <= i <= |recipeName|
      invariant acc + SlugFrom(recipeName[i..], inRun) == SlugFrom(recipeName, false)
    {
      var c := recipeName[i];
      assert recipeName[i..][0] == c && recipeName[i..][1..] == recipeName[i + 1..];
      if IsSpace(c) {
        if !inRun {
          acc := acc + "-";
        }
        inRun := true;
      } else {
        acc := acc + [Lower(c)];
        inRun := false;
      }
      i := i + 1;
    }
    ScanAgrees(recipeName);
    file := acc + ".png";
  }
}
