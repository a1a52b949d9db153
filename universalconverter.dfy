/** The decisions of the universal converter page: which category a selected file is
    put in (`handleFileSelect`) and the name a download is saved under (`handleDownload`). */
module UniversalConverter {
  import opened Strings

  datatype Option<T> = None | Some(value: T)

  datatype ConversionOption = ConversionOption(category: string, to: seq<string>)

  /** `conversionOptions`, in declaration order. */
  const Options: seq<ConversionOption> := [
    ConversionOption("Images", ["JPG", "PNG", "WEBP", "BMP", "ICO"]),
    ConversionOption("Documents", ["PDF", "TXT", "MD", "HTML"]),
    ConversionOption("3D Models", ["STL", "OBJ", "GLTF", "PLY", "GLB"]),
    ConversionOption("Audio", ["MP3", "WAV", "OGG", "AAC"]),
    ConversionOption("Video", ["MP4", "WEBM", "GIF", "AVI", "MOV"]),
    ConversionOption("Archives", ["ZIP"])
  ]

  /** The extra extensions the `Images` option accepts in the `find` predicate. */
  const ImageExtras: seq<string> := ["JPG", "JPEG", "PNG", "WEBP", "BMP", "GIF"]

  /** The `find` predicate for one option. */
  predicate Accepts(opt: ConversionOption, ext: string)
  {
    ext in opt.to || (opt.category == "Images" && ext in ImageExtras)
  }

  /** `opts.find(...)`: the first option that accepts `ext`. */
  function FindOption(opts: seq<ConversionOption>, ext: string): Option<ConversionOption>
  {
    if opts == [] then None
    else if Accepts(opts[0], ext) then Some(opts[0])
    else FindOption(opts[1..], ext)
  }

  /** `find` yields nothing exactly when no option accepts, and otherwise the option at the
      first accepting position. */
  lemma {:induction false} FindOptionFirst(opts: seq<ConversionOption>, ext: string)
    ensures FindOption(opts, ext).None? <==> forall i :: 0 <= i < |opts| ==> !Accepts(opts[i], ext)
    ensures FindOption(opts, ext).Some? ==>
      exists i :: 0 <= i < |opts| && opts[i] == FindOption(opts, ext).value && Accepts(opts[i], ext)
                  && forall j :: 0 <= j < i ==> !Accepts(opts[j], ext)
  {
    if opts == [] {
    } else if Accepts(opts[0], ext) {
      assert opts[0] == FindOption(opts, ext).value;
    } else {
      var r := FindOption(opts[1..], ext);
      FindOptionFirst(opts[1..], ext);
      if r.Some? {
        var i :| 0 <= i < |opts[1..]| && opts[1..][i] == r.value && Accepts(opts[1..][i], ext)
                 && forall j :: 0 <= j < i ==> !Accepts(opts[1..][j], ext);
        assert opts[i + 1] == r.value && forall j :: 0 <= j < i + 1 ==> !Accepts(opts[j], ext);
      } else {
        assert forall i :: 1 <= i < |opts| ==> opts[i] == opts[1..][i - 1];
      }
    }
  }

  /** `file.name.split('.').pop()?.toUpperCase() || ''`. */
  function ExtensionOf(name: string): (ext: string)
    ensures '.' !in ext
  {
    var a := AfterLast(name, '.');
    NoDotUpper(a);
    Upper(a)
  }

  lemma NoDotUpper(a: string)
    requires '.' !in a
    ensures '.' !in Upper(a)
  {
    forall i | 0 <= i < |a|
      ensures Upper(a)[i] != '.'
    {
      assert a[i] != '.';
      if 'a' <= a[i] <= 'z' {
        assert 'A' as int <= Upper(a)[i] as int <= 'Z' as int;
      }
    }
  }

  /** The category `handleFileSelect` selects for an extension, or `None` when the
      selected category is left as it was. */
  function DetectCategory(ext: string): Option<string>
  {
    var found := FindOption(Options, ext);
    if found.Some? then Some(found.value.category)
    else if ext in ["JPG", "JPEG", "PNG", "WEBP", "BMP", "GIF", "TIFF", "AVIF"] then Some("Images")
    else if ext in ["TXT", "MD", "HTML", "JS", "TS", "CSS", "JSON", "XML", "CSV"] then Some("Documents")
    else if ext in ["STL", "OBJ", "GLTF", "GLB", "PLY", "3DS", "FBX"] then Some("3D Models")
    else None
  }

  /** The category after selecting a file named `name` while `current` was selected. */
  function CategoryAfterSelect(current: string, name: string): (c: string)
    ensures DetectCategory(ExtensionOf(name)).None? ==> c == current
    ensures DetectCategory(ExtensionOf(name)).Some? ==> c == DetectCategory(ExtensionOf(name)).value
  {
    match DetectCategory(ExtensionOf(name))
    case Some(cat) => cat
    case None => current
  }

  /** An extension listed as a target of some option selects the first such option,
      except that every extension the `Images` option accepts selects `Images`. */
  lemma {:induction false} TargetExtensionSelectsFirstOption(ext: string, i: nat)
    requires i < |Options| && ext in Options[i].to
    requires forall j :: 0 <= j < i ==> ext !in Options[j].to
    ensures ext in ImageExtras ==> DetectCategory(ext) == Some("Images")
    ensures ext !in ImageExtras ==> DetectCategory(ext) == Some(Options[i].category)
  {
    var found := FindOption(Options, ext);
    FindOptionFirst(Options, ext);
    assert Accepts(Options[i], ext);
    var k :| 0 <= k < |Options| && Options[k] == found.value && Accepts(Options[k], ext)
             && forall j :: 0 <= j < k ==> !Accepts(Options[j], ext);
    if ext in ImageExtras {
      assert Accepts(Options[0], ext);
      assert k == 0;
    } else {
      assert forall j :: 0 <= j < |Options| ==> (Accepts(Options[j], ext) <==> ext in Options[j].to);
      assert k == i;
    }
  }

  /** GIF is a target of `Video` too, but the `Images` option comes first. */
  lemma GifIsAnImage()
    ensures DetectCategory("GIF") == Some("Images")
  {
    assert Accepts(Options[0], "GIF");
  }

  /** Every extension some option accepts: all `to` lists and the extra image extensions. */
  const Accepted: seq<string> := ["JPG", "PNG", "WEBP", "BMP", "ICO", "PDF", "TXT", "MD", "HTML",
    "STL", "OBJ", "GLTF", "PLY", "GLB", "MP3", "WAV", "OGG", "AAC", "MP4", "WEBM", "GIF", "AVI",
    "MOV", "ZIP", "JPEG"]

  /** `Accepted` is the options' target lists in order, then JPEG. */
  lemma AcceptedLists()
    ensures Accepted == Options[0].to + Options[1].to + Options[2].to + Options[3].to + Options[4].to
                        + Options[5].to + ["JPEG"]
  {
    assert Accepted[..5] == Options[0].to;
    assert Accepted[5..9] == Options[1].to;
    assert Accepted[9..14] == Options[2].to;
    assert Accepted[14..18] == Options[3].to;
    assert Accepted[18..23] == Options[4].to;
    assert Accepted[23..24] == Options[5].to;
    assert Accepted == Accepted[..5] + Accepted[5..9] + Accepted[9..14] + Accepted[14..18] + Accepted[18..23]
                       + Accepted[23..24] + [Accepted[24]];
  }

  /** The extra image extensions are all accepted. */
  lemma ExtrasAccepted()
    ensures forall e :: e in ImageExtras ==> e in Accepted
  {
    AcceptedLists();
    assert ImageExtras == Options[0].to[..1] + ["JPEG"] + Options[0].to[1..4] + [Options[4].to[2]];
  }

  /** No option accepts `ext` exactly when it is not in `Accepted`. */
  lemma NoOptionAccepts(ext: string)
    ensures FindOption(Options, ext).None? <==> ext !in Accepted
  {
    FindOptionFirst(Options, ext);
    AcceptedLists();
    ExtrasAccepted();
    if ext in Accepted {
      if ext in Options[0].to || ext == "JPEG" {
        assert Accepts(Options[0], ext);
      } else if ext in Options[1].to {
        assert Accepts(Options[1], ext);
      } else if ext in Options[2].to {
        assert Accepts(Options[2], ext);
      } else if ext in Options[3].to {
        assert Accepts(Options[3], ext);
      } else if ext in Options[4].to {
        assert Accepts(Options[4], ext);
      } else {
        assert Accepts(Options[5], ext);
      }
    } else {
      forall i | 0 <= i < |Options|
        ensures !Accepts(Options[i], ext)
      {
        assert ext !in ImageExtras;
        assert ext !in Options[i].to;
      }
    }
  }

  /** An extension no option accepts falls through to the fallback lists. */
  lemma Unaccepted(ext: string)
    requires ext !in Accepted
    ensures FindOption(Options, ext).None?
  {
    NoOptionAccepts(ext);
  }

  /** The fallback lists, reached only when no option accepts the extension: TIFF and AVIF
      are images, source-code and data formats are documents, 3DS and FBX are 3D models. */
  lemma FallbackImages(ext: string)
    requires ext in ["TIFF", "AVIF"]
    ensures DetectCategory(ext) == Some("Images")
  {
    if ext == "TIFF" {
      FallbackTiff();
    } else {
      FallbackAvif();
    }
  }

  lemma FallbackDocuments(ext: string)
    requires ext in ["JS", "TS", "CSS", "JSON", "XML", "CSV"]
    ensures DetectCategory(ext) == Some("Documents")
  {
    if ext == "JS" {
      FallbackJs();
    } else if ext == "TS" {
      FallbackTs();
    } else if ext == "CSS" {
      FallbackCss();
    } else if ext == "JSON" {
      FallbackJson();
    } else if ext == "XML" {
      FallbackXml();
    } else {
      FallbackCsv();
    }
  }

  lemma FallbackModels(ext: string)
    requires ext in ["3DS", "FBX"]
    ensures DetectCategory(ext) == Some("3D Models")
  {
    if ext == "3DS" {
      Fallback3ds();
    } else {
      FallbackFbx();
    }
  }

  lemma FallbackTiff()
    ensures DetectCategory("TIFF") == Some("Images")
  {
    assert "TIFF" !in Accepted;
    Unaccepted("TIFF");
  }

  lemma FallbackAvif()
    ensures DetectCategory("AVIF") == Some("Images")
  {
    assert "AVIF" !in Accepted;
    Unaccepted("AVIF");
  }

  lemma FallbackJs()
    ensures DetectCategory("JS") == Some("Documents")
  {
    assert "JS" !in Accepted;
    Unaccepted("JS");
  }

  lemma FallbackTs()
    ensures DetectCategory("TS") == Some("Documents")
  {
    assert "TS" !in Accepted;
    Unaccepted("TS");
  }

  lemma FallbackCss()
    ensures DetectCategory("CSS") == Some("Documents")
  {
    assert "CSS" !in Accepted;
    Unaccepted("CSS");
  }

  lemma FallbackJson()
    ensures DetectCategory("JSON") == Some("Documents")
  {
    assert "JSON" !in Accepted;
    Unaccepted("JSON");
  }

  lemma FallbackXml()
    ensures DetectCategory("XML") == Some("Documents")
  {
    assert "XML" !in Accepted;
    Unaccepted("XML");
  }

  lemma FallbackCsv()
    ensures DetectCategory("CSV") == Some("Documents")
  {
    assert "CSV" !in Accepted;
    Unaccepted("CSV");
  }

  lemma Fallback3ds()
    ensures DetectCategory("3DS") == Some("3D Models")
  {
    assert "3DS" !in Accepted;
    Unaccepted("3DS");
  }

  lemma FallbackFbx()
    ensures DetectCategory("FBX") == Some("3D Models")
  {
    assert "FBX" !in Accepted;
    Unaccepted("FBX");
  }

  /** An extension in no list at all leaves the selected category unchanged, and every
      listed one changes it. */
  lemma UnlistedKeepsCategory(ext: string)
    ensures DetectCategory(ext).None? <==>
      ext !in Accepted + ["TIFF", "AVIF", "JS", "TS", "CSS", "JSON", "XML", "CSV", "3DS", "FBX"]
  {
    NoOptionAccepts(ext);
  }

  /** `baseName`: the text before the last dot, or the whole name when that is empty
      (no dot at all, or only a leading one). */
  function BaseName(originalName: string): (b: string)
    ensures |b| <= |originalName| && b == originalName[..|b|]
    ensures originalName != "" ==> b != ""
    ensures |b| < |originalName| ==>
      originalName[|b|] == '.' && '.' !in originalName[|b| + 1..] && |b| > 0
    ensures |b| == |originalName| ==> LastIndexOf(originalName, '.') <= 0
  {
    var i := LastIndexOf(originalName, '.');
    // substring(0, -1) is the empty string
    var before := if i >= 0 then originalName[..i] else "";
    if before != "" then before else originalName
  }

  /** The name the converted file is saved under: `baseName + '_converted.' + ext`. */
  function DownloadName(fileName: Option<string>, targetFormat: string): (r: string)
    ensures var originalName := if fileName.Some? && fileName.value != "" then fileName.value
                                else "converted";
            var ext := if targetFormat != "" then Lower(targetFormat) else "converted";
            r == BaseName(originalName) + "_converted." + ext
  {
    var originalName := if fileName.Some? && fileName.value != "" then fileName.value else "converted";
    var lowered := Lower(targetFormat);
    var ext := if lowered != "" then lowered else "converted";
    BaseName(originalName) + "_converted." + ext
  }
}
