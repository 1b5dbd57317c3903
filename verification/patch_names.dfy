/** How the source-frame views get from a patch file to the video frame it
    was cut from and to its entry in the patch metadata. A patch file's name
    holds the frame's number as its first run of digits, and its stem (the
    name up to the first `.`) is `<frame name, 12 characters><separator><mask
    name>`. */
module PatchNames {
  import opened Wrappers
  import Text
  import PyList

  /** `int(re.findall(r'\d+', name)[0])`: None where no digit occurs and the
      indexing raises IndexError. */
  function FrameIndex(name: string): (r: Option<nat>)
    ensures r.None? <==> forall k :: 0 <= k < |name| ==> !Text.IsDigit(name[k])
  {
    match Text.FirstDigitRun(name)
    case None => None
    case Some(d) => Some(Text.ParseNat(d))
  }

  /** `"frame_{:06d}".format(idx)` followed by the extension. */
  function FrameFileName(idx: nat, ext: string): (r: string)
    ensures |r| >= 12 + |ext| && r[..6] == "frame_" && r[|r| - |ext|..] == ext
  {
    "frame_" + Text.FormatInt(idx, 6) + ext
  }

  /** `os.path.join(dataset_dir, "splitted", kind, frame file name)`. */
  function FramePath(datasetDir: string, kind: string, idx: nat, ext: string): (r: string)
  {
    Text.PathJoin(Text.PathJoin(Text.PathJoin(datasetDir, "splitted"), kind), FrameFileName(idx, ext))
  }

  /** The frame number can be read back from the frame's file name, since the
      name holds no digit before it and the extension starts with no digit. */
  lemma FrameIndexOfFileName(idx: nat, ext: string)
    requires |ext| == 0 || !Text.IsDigit(ext[0])
    ensures FrameIndex(FrameFileName(idx, ext)) == Some(idx)
  {
    var d := Text.FormatInt(idx, 6);
    Text.FirstDigitRunOf("frame_", d, ext);
    Text.ParseFormat(idx, 6);
  }

  /** The frame file is named after the frame: its basename is the frame file
      name, which gives the frame number back, so different frames never share
      a path. */
  lemma FramePathSpec(datasetDir: string, kind: string, idx: nat, ext: string)
    requires '/' !in ext && (|ext| == 0 || !Text.IsDigit(ext[0]))
    ensures Text.Basename(FramePath(datasetDir, kind, idx, ext)) == FrameFileName(idx, ext)
    ensures FrameIndex(Text.Basename(FramePath(datasetDir, kind, idx, ext))) == Some(idx)
  {
    var name := FrameFileName(idx, ext);
    FrameFileNameNoSlash(idx, ext);
    Text.BasenameJoin(Text.PathJoin(Text.PathJoin(datasetDir, "splitted"), kind), name);
    FrameIndexOfFileName(idx, ext);
  }

  lemma FrameFileNameNoSlash(idx: nat, ext: string)
    requires '/' !in ext
    ensures '/' !in FrameFileName(idx, ext)
  {
    var d := Text.FormatInt(idx, 6);
    assert '/' !in d by {
      forall k | 0 <= k < |d| ensures d[k] != '/' {
        assert Text.IsDigit(d[k]);
      }
    }
    assert FrameFileName(idx, ext) == "frame_" + d + ext;
  }

  lemma FramePathInjective(datasetDir: string, kind: string, i: nat, j: nat, ext: string)
    requires '/' !in ext && (|ext| == 0 || !Text.IsDigit(ext[0]))
    requires FramePath(datasetDir, kind, i, ext) == FramePath(datasetDir, kind, j, ext)
    ensures i == j
  {
    FramePathSpec(datasetDir, kind, i, ext);
    FramePathSpec(datasetDir, kind, j, ext);
  }

  /** `str.split(name, ".")[0]`: the name up to its first `.`. */
  function StemOf(name: string): (r: string)
    ensures '.' !in r && |r| <= |name| && r == name[..|r|]
    ensures |r| < |name| ==> name[|r|] == '.'
  {
    if |name| == 0 || name[0] == '.' then "" else [name[0]] + StemOf(name[1..])
  }

  /** The stem is the first piece of `str.split` on `.`. */
  lemma {:induction false} StemIsFirstPiece(name: string)
    ensures StemOf(name) == Text.Split(name, '.')[0]
  {
    if |name| > 0 {
      StemIsFirstPiece(name[1..]);
    }
  }

  /** `stem[:12]`. */
  function FrameName(stem: string): (r: string)
    ensures |r| == if |stem| < 12 then |stem| else 12
  {
    PyList.Slice(stem, 0, 12)
  }

  /** `stem[13:]`: character 12 is skipped as the separator. */
  function MaskName(stem: string): (r: string)
    ensures |r| == if |stem| < 13 then 0 else |stem| - 13
  {
    PyList.Slice(stem, 13, |stem|)
  }

  /** The key of a patch in the patch metadata: the module, and the frame and
      mask names of the patch file's stem. */
  function MetaKey(trackId: string, name: string): (r: (string, string, string))
    ensures r.0 == trackId
  {
    var stem := StemOf(name);
    (trackId, FrameName(stem), MaskName(stem))
  }

  /** The frame and mask names cover the whole stem but its 13th character. */
  lemma NamesCoverStem(stem: string)
    ensures |stem| >= 13 ==> FrameName(stem) + [stem[12]] + MaskName(stem) == stem
    ensures |stem| <= 12 ==> FrameName(stem) == stem && MaskName(stem) == ""
  {
    if |stem| >= 13 {
      assert stem == stem[..12] + [stem[12]] + stem[13..];
    }
  }

  /** A patch file named `<frame><separator><mask><extension>`, with a
      12-character frame name and no `.` before the extension, is keyed by
      exactly that frame and mask name. */
  lemma MetaKeyOf(trackId: string, frame: string, sep: char, mask: string, ext: string)
    requires |frame| == 12 && sep != '.' && '.' !in frame && '.' !in mask
    requires |ext| == 0 || ext[0] == '.'
    ensures MetaKey(trackId, frame + [sep] + mask + ext) == (trackId, frame, mask)
  {
    var stem := frame + [sep] + mask;
    assert '.' !in stem by {
      forall k | 0 <= k < |stem| ensures stem[k] != '.' {
        if k < 12 {
          assert stem[k] == frame[k];
        } else if k > 12 {
          assert stem[k] == mask[k - 13];
        }
      }
    }
    assert frame + [sep] + mask + ext == stem + ext;
    StemOfPrefix(stem, ext);
    assert PyList.Slice(stem, 0, 12) == stem[..12] == frame;
    assert PyList.Slice(stem, 13, |stem|) == stem[13..] == mask;
  }

  lemma {:induction false} StemOfPrefix(stem: string, ext: string)
    requires '.' !in stem && (|ext| == 0 || ext[0] == '.')
    ensures StemOf(stem + ext) == stem
  {
    if |stem| == 0 {
      assert stem + ext == ext;
    } else {
      assert (stem + ext)[1..] == stem[1..] + ext;
      StemOfPrefix(stem[1..], ext);
      assert stem == [stem[0]] + stem[1..];
    }
  }

  /** The colour maps the radiometric frame can be shown in. */
  datatype Colormap = Plasma | Jet

  /** The colour map of the combo-box index: none for 0 (and any index that
      is not positive), PLASMA for 1, JET for 2; any larger index is missing
      from the lookup table and raises KeyError. */
  function ColormapOf(index: int): (r: Result<Option<Colormap>>)
    ensures r.Raise? <==> index > 2
    ensures r.Raise? ==> r.error == KeyError
    ensures r.Ok? ==> (r.value.None? <==> index <= 0)
  {
    if index > 0 then
      (if index == 1 then Ok(Some(Plasma)) else if index == 2 then Ok(Some(Jet)) else Raise(KeyError))
    else Ok(None)
  }

  /** `sorted(glob.glob(os.path.join(directory, "*")))`, given the entries of
      the directory that `*` matches (those not starting with `.`). */
  function SortedFiles(directory: string, entries: seq<string>): (r: seq<string>)
    ensures |r| == |entries|
  {
    Text.SortSpec(JoinAll(directory, entries));
    assert |multiset(Text.Sort(JoinAll(directory, entries)))| == |multiset(JoinAll(directory, entries))|;
    Text.Sort(JoinAll(directory, entries))
  }

  function JoinAll(directory: string, entries: seq<string>): (r: seq<string>)
    ensures |r| == |entries| && forall k :: 0 <= k < |entries| ==> r[k] == Text.PathJoin(directory, entries[k])
  {
    if |entries| == 0 then [] else [Text.PathJoin(directory, entries[0])] + JoinAll(directory, entries[1..])
  }

  /** The listing is sorted, holds one path per entry, and its first path is
      the least of them. */
  lemma SortedFilesSpec(directory: string, entries: seq<string>)
    ensures Text.Sorted(SortedFiles(directory, entries))
    ensures multiset(SortedFiles(directory, entries)) == multiset(JoinAll(directory, entries))
    ensures |entries| > 0 ==> forall e :: e in entries ==> Text.LexLe(SortedFiles(directory, entries)[0], Text.PathJoin(directory, e))
  {
    var joined := JoinAll(directory, entries);
    var files := SortedFiles(directory, entries);
    Text.SortSpec(joined);
    if |entries| > 0 {
      forall e | e in entries ensures Text.LexLe(files[0], Text.PathJoin(directory, e)) {
        var i :| 0 <= i < |entries| && entries[i] == e;
        assert joined[i] == Text.PathJoin(directory, e);
        assert Text.PathJoin(directory, e) in multiset(files);
        var k :| 0 <= k < |files| && files[k] == Text.PathJoin(directory, e);
        if k > 0 {
          assert Text.LexLe(files[0], files[k]);
        } else {
          Text.LexLeTotal(files[0], files[0]);
        }
      }
    }
  }
}
