/** `MediaConverter.convert` without the FFmpeg runtime: the names of the input and output
    files in FFmpeg's virtual file system, the argument list handed to `exec`, the MIME
    type of the result and the values reported to `onProgress`. */
module MediaConverter {
  import opened Numerics
  import opened Strings

  /** The regular expression `/\.[^.]+$/` matches `s` at position `k`: a dot, then at least
      one character, none of them a dot, up to the end of the string. */
  predicate ExtensionAt(s: string, k: int)
  {
    0 <= k < |s| - 1 && s[k] == '.' && forall j :: k < j < |s| ==> s[j] != '.'
  }

  /** `getExtension`: the regular expression's match, or the empty string. */
  function Extension(filename: string): (r: string)
    ensures forall k :: ExtensionAt(filename, k) ==> r == filename[k..]
    ensures (forall k :: !ExtensionAt(filename, k)) ==> r == ""
    ensures r != "" ==> r[0] == '.' && |r| >= 2 && '.' !in r[1..]
  {
    var i := LastIndexOf(filename, '.');
    if i >= 0 && i < |filename| - 1 then
      assert ExtensionAt(filename, i);
      filename[i..]
    else ""
  }

  /** `getMimeType`. */
  function MimeType(format: string): (m: string)
    ensures format !in {"MP3", "WAV", "OGG", "AAC", "MP4", "WEBM", "AVI", "MOV", "GIF"} ==>
      m == "application/octet-stream"
  {
    match format
    case "MP3" => "audio/mpeg"
    case "WAV" => "audio/wav"
    case "OGG" => "audio/ogg"
    case "AAC" => "audio/aac"
    case "MP4" => "video/mp4"
    case "WEBM" => "video/webm"
    case "AVI" => "video/x-msvideo"
    case "MOV" => "video/quicktime"
    case "GIF" => "image/gif"
    case _ => "application/octet-stream"
  }

  /** The nine media formats have nine distinct MIME types, none of them the fallback. */
  lemma MimeTypesDistinct(f1: string, f2: string)
    requires f1 in {"MP3", "WAV", "OGG", "AAC", "MP4", "WEBM", "AVI", "MOV", "GIF"}
    requires f2 in {"MP3", "WAV", "OGG", "AAC", "MP4", "WEBM", "AVI", "MOV", "GIF"}
    ensures MimeType(f1) != "application/octet-stream"
    ensures MimeType(f1) == MimeType(f2) <==> f1 == f2
  {
  }

  /** `'input' + getExtension(file.name)`. */
  function InputName(filename: string): (r: string)
    ensures |r| >= 5 && r[..5] == "input" && r[5..] == Extension(filename)
  {
    "input" + Extension(filename)
  }

  /** `'output.' + format.toLowerCase()`. */
  function OutputName(format: string): (r: string)
    ensures |r| >= 7 && r[..7] == "output." && r[7..] == Lower(format)
  {
    "output." + Lower(format)
  }

  /** The flags the `switch` inserts between the input and the output for `format`. */
  function FormatFlags(format: string): seq<string>
  {
    match format
    case "MP4" => ["-c:v", "libx264", "-c:a", "aac"]
    case "WEBM" => ["-c:v", "libvpx", "-c:a", "libvorbis"]
    case "GIF" => ["-vf", "fps=10,scale=320:-1:flags=lanczos"]
    case "MP3" => ["-b:a", "192k"]
    case _ => []
  }

  /** Builds `args` as `convert` does: `-i` and the input, the format's flags, the output. */
  method BuildArgs(format: string, inputName: string, outputName: string) returns (args: seq<string>)
    ensures |args| >= 3
    ensures args[..2] == ["-i", inputName] && args[|args| - 1] == outputName
    ensures args[2..|args| - 1] == FormatFlags(format)
    ensures |args| > 3 <==> format in {"MP4", "WEBM", "GIF", "MP3"}
  {
    args := ["-i", inputName];
    if format == "MP4" {
      args := args + ["-c:v", "libx264", "-c:a", "aac"];
    } else if format == "WEBM" {
      args := args + ["-c:v", "libvpx", "-c:a", "libvorbis"];
    } else if format == "GIF" {
      args := args + ["-vf", "fps=10,scale=320:-1:flags=lanczos"];
    } else if format == "MP3" {
      args := args + ["-b:a", "192k"];
    }
    args := args + [outputName];
  }

  /** The progress handler: an FFmpeg progress value is forwarded, as a percentage,
      only when it lies in [0,1]. */
  function ForwardedProgress(events: seq<real>): (r: seq<int>)
    ensures |r| <= |events|
    ensures forall i :: 0 <= i < |r| ==> 0 <= r[i] <= 100
  {
    if events == [] then []
    else
      var rest := ForwardedProgress(events[1..]);
      if 0.0 <= events[0] <= 1.0 then
        JsRoundBounds(events[0] * 100.0);
        [JsRound(events[0] * 100.0)] + rest
      else rest
  }

  /** Everything `convert` reports to `onProgress`, given the progress events FFmpeg
      raises during `exec` and whether the conversion succeeded. Without a callback
      nothing is reported. */
  function ProgressReports(hasCallback: bool, events: seq<real>, succeeded: bool): (r: seq<int>)
    ensures !hasCallback ==> r == []
    ensures hasCallback ==> |r| >= 1 && r[0] == 0
    ensures hasCallback && succeeded ==> r[|r| - 1] == 100
    ensures forall i :: 0 <= i < |r| ==> 0 <= r[i] <= 100
  {
    if !hasCallback then []
    else [0] + ForwardedProgress(events) + (if succeeded then [100] else [])
  }

  /** Events outside [0,1] are dropped, and in-range events keep their order. */
  lemma {:induction false} ForwardedProgressFilters(events: seq<real>, p: real)
    ensures p < 0.0 || p > 1.0 ==> ForwardedProgress(events + [p]) == ForwardedProgress(events)
    ensures 0.0 <= p <= 1.0 ==>
      ForwardedProgress(events + [p]) == ForwardedProgress(events) + [JsRound(p * 100.0)]
  {
    if events == [] {
      assert ([] + [p])[1..] == [];
    } else {
      assert (events + [p])[1..] == events[1..] + [p];
      ForwardedProgressFilters(events[1..], p);
    }
  }

  // ----- Progress handlers across conversions -----

  /** One call of `convert` on the shared FFmpeg instance: whether it passes `onProgress`,
      the progress events FFmpeg raises during its `exec`, and whether it succeeds. */
  datatype Conversion = Conversion(hasCallback: bool, events: seq<real>, succeeded: bool)

  /** The percentages a handler still registered forwards during `cs[from..]`. */
  function LaterForwarded(cs: seq<Conversion>, from: nat): (r: seq<int>)
    ensures forall i :: 0 <= i < |r| ==> 0 <= r[i] <= 100
    decreases |cs| - from
  {
    if from >= |cs| then [] else ForwardedProgress(cs[from].events) + LaterForwarded(cs, from + 1)
  }

  /** What the callback of conversion `j` receives when the conversions `cs` run one after
      another. `convert` registers a handler with `ffmpeg.on` and never removes it, because
      the `ffmpeg.off` call is commented out: with `removed` false that handler also
      forwards the progress of every later conversion; with `removed` true it is taken
      off when its own conversion ends. */
  function SessionReports(cs: seq<Conversion>, j: nat, removed: bool): (r: seq<int>)
    requires j < |cs|
    ensures !cs[j].hasCallback ==> r == []
    ensures |r| >= |ProgressReports(cs[j].hasCallback, cs[j].events, cs[j].succeeded)|
    ensures r[..|ProgressReports(cs[j].hasCallback, cs[j].events, cs[j].succeeded)|]
            == ProgressReports(cs[j].hasCallback, cs[j].events, cs[j].succeeded)
  {
    var c := cs[j];
    ProgressReports(c.hasCallback, c.events, c.succeeded)
    + (if c.hasCallback && !removed then LaterForwarded(cs, j + 1) else [])
  }

  /** As written, a callback hears from a later conversion after its own has reported
      100: a first conversion with a callback and no events, then a second whose FFmpeg
      run reports half-way, leave the first callback with 0, 100 and then 50. */
  lemma StaleHandlerReports()
    ensures var cs := [Conversion(true, [], true), Conversion(false, [0.5], true)];
      SessionReports(cs, 0, false) == [0, 100, 50]
  {
    var cs := [Conversion(true, [], true), Conversion(false, [0.5], true)];
    assert ForwardedProgress([0.5]) == [50] by {
      assert JsRound(0.5 * 100.0) == 50;
      assert [0.5][1..] == [];
    }
    assert LaterForwarded(cs, 2) == [];
    assert LaterForwarded(cs, 1) == [50];
  }

  /** With the handler removed when its conversion ends, each callback hears only about
      its own conversion: it starts at 0, reports each in-range event of its own run in
      order, and a successful conversion reports 100 last, whatever runs afterwards. */
  lemma SessionReportsOwn(cs: seq<Conversion>, j: nat)
    requires j < |cs|
    ensures SessionReports(cs, j, true) == ProgressReports(cs[j].hasCallback, cs[j].events, cs[j].succeeded)
    ensures cs[j].hasCallback ==> SessionReports(cs, j, true)[0] == 0
    ensures cs[j].hasCallback && cs[j].succeeded ==>
      var r := SessionReports(cs, j, true); r[|r| - 1] == 100
    ensures forall c :: SessionReports(cs + [c], j, true) == SessionReports(cs, j, true)
  {
  }
}
