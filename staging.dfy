/**
 * The output directory as both downloaders use it: yt-dlp writes subtitle
 * files into it, `Path.glob` lists the names containing a video id, and the
 * web server's downloader deletes the file it parsed.
 *
 * A file's content is `None` when it cannot be read as UTF-8 text.
 */
module Staging {
  import opened Wrappers
  import opened Text
  import opened Search
  import Subtitles

  /** A file yt-dlp writes: its name in the directory and its content. */
  datatype StagedFile = StagedFile(name: string, content: Option<string>)

  /** The names in `order` that are not `name`, in order. */
  function Without(order: seq<string>, name: string): (r: seq<string>)
    ensures forall x :: x in r <==> x in order && x != name
    ensures |r| <= |order|
    decreases |order|
  {
    if order == [] then []
    else
      var init := Without(order[..|order| - 1], name);
      assert order == order[..|order| - 1] + [order[|order| - 1]];
      if order[|order| - 1] == name then init else init + [order[|order| - 1]]
  }

  /** A sequence without repetitions. */
  predicate NoDuplicates(order: seq<string>) {
    forall i, j :: 0 <= i < j < |order| ==> order[i] != order[j]
  }

  /**
   * The directory: the content of each file, and the order in which this
   * model's glob lists them. `Write` puts a new name at the end, so that
   * order is the order of creation.
   */
  datatype Dir = Dir(files: map<string, Option<string>>, order: seq<string>)
  {
    /** Every file is listed exactly once. */
    ghost predicate Valid() {
      && NoDuplicates(order)
      && (forall name :: name in files <==> name in order)
    }

    /** Writes one file: a new name goes to the end of the listing, an old one keeps its place. */
    function Write(name: string, content: Option<string>): (d: Dir)
      ensures d.files == files[name := content]
      ensures Valid() ==> d.Valid()
      ensures name in files ==> d.order == order
    {
      if name in files then Dir(files[name := content], order)
      else
        var d := Dir(files[name := content], order + [name]);
        assert Valid() ==> NoDuplicates(d.order) by {
          if Valid() {
            forall i, j | 0 <= i < j < |d.order| ensures d.order[i] != d.order[j] {
              if j == |order| {
                assert d.order[i] == order[i];
              } else {
                assert d.order[i] == order[i] && d.order[j] == order[j];
              }
            }
          }
        }
        d
    }

    /** Writes the files of one yt-dlp run, one after the other. */
    function WriteAll(staged: seq<StagedFile>): (d: Dir)
      ensures Valid() ==> d.Valid()
      ensures files.Keys <= d.files.Keys
      decreases |staged|
    {
      if staged == [] then this
      else Write(staged[0].name, staged[0].content).WriteAll(staged[1..])
    }

    /** `Path.unlink`: removes one file. */
    function Unlink(name: string): (d: Dir)
      ensures d.files == files - {name}
      ensures Valid() ==> d.Valid()
    {
      var d := Dir(files - {name}, Without(order, name));
      assert Valid() ==> NoDuplicates(d.order) by {
        if Valid() {
          WithoutNoDuplicates(order, name);
        }
      }
      d
    }

    /** `output_dir.glob(f"*{video_id}*")`: the names containing the id, in listing order. */
    function Glob(id: string): (names: seq<string>)
    {
      Matching(order, id)
    }
  }

  /** The names of `order` containing `id`, in order. */
  function Matching(order: seq<string>, id: string): (r: seq<string>)
    decreases |order|
  {
    if order == [] then []
    else
      var last := order[|order| - 1];
      Matching(order[..|order| - 1], id) + (if Contains(last, id) then [last] else [])
  }

  /** Removing a name keeps a listing free of repetitions. */
  lemma {:induction false} WithoutNoDuplicates(order: seq<string>, name: string)
    requires NoDuplicates(order)
    ensures NoDuplicates(Without(order, name))
    decreases |order|
  {
    if order != [] {
      var init := order[..|order| - 1];
      var last := order[|order| - 1];
      WithoutNoDuplicates(init, name);
      var w := Without(init, name);
      if last != name {
        var r := w + [last];
        forall i, j | 0 <= i < j < |r| ensures r[i] != r[j] {
          if j == |w| {
            assert r[i] == w[i] && w[i] in init;
          } else {
            assert r[i] == w[i] && r[j] == w[j];
          }
        }
      }
    }
  }

  /** A glob lists exactly the names in the directory that contain the id. */
  lemma {:induction false} MatchingMembers(order: seq<string>, id: string, name: string)
    ensures name in Matching(order, id) <==> name in order && Contains(name, id)
    decreases |order|
  {
    if order != [] {
      MatchingMembers(order[..|order| - 1], id, name);
      assert order == order[..|order| - 1] + [order[|order| - 1]];
    }
  }

  /** A glob lists names in the directory's order: it keeps a subsequence. */
  lemma {:induction false} MatchingAppend(a: seq<string>, b: seq<string>, id: string)
    ensures Matching(a + b, id) == Matching(a, id) + Matching(b, id)
    decreases |b|
  {
    if b == [] {
      assert a + b == a;
    } else {
      var front, last := b[..|b| - 1], b[|b| - 1];
      assert (a + b)[..|a + b| - 1] == a + front;
      assert (a + b)[|a + b| - 1] == last;
      MatchingAppend(a, front, id);
    }
  }

  /** A name with suffix `.vtt` or `.srt`. */
  predicate IsSubtitleName(name: string) {
    Subtitles.Suffix(name) == ".vtt" || Subtitles.Suffix(name) == ".srt"
  }

  /** The first listed name whose suffix is `.vtt` or `.srt`. */
  function FirstSubtitle(names: seq<string>): (r: Option<string>)
    ensures r.Some? ==> r.value in names && IsSubtitleName(r.value)
    ensures r.None? <==> forall i :: 0 <= i < |names| ==> !IsSubtitleName(names[i])
  {
    var k := FirstHit(names, IsSubtitleName);
    if k < |names| then Some(names[k]) else None
  }

  /** The loop over a glob's names that stops at the first `.vtt` or `.srt` file. */
  method FindSubtitle(names: seq<string>) returns (found: Option<string>)
    ensures found == FirstSubtitle(names)
  {
    var k := FindFirst(names, IsSubtitleName);
    if k < |names| {
      return Some(names[k]);
    }
    return None;
  }

  /** The name found is the first subtitle in the listing: every name before it is something else. */
  lemma FirstSubtitleIsFirst(names: seq<string>)
    requires FirstSubtitle(names).Some?
    ensures exists k ::
      && 0 <= k < |names| && names[k] == FirstSubtitle(names).value
      && (forall j :: 0 <= j < k ==> !IsSubtitleName(names[j]))
  {
    var k := FirstHit(names, IsSubtitleName);
    assert names[k] == FirstSubtitle(names).value;
  }

  /** The glob lists no `.vtt` or `.srt` file exactly when no such file's name contains the id. */
  lemma NoGlobbedSubtitle(d: Dir, id: string)
    requires d.Valid()
    ensures FirstSubtitle(d.Glob(id)).None? <==>
      forall name :: name in d.files && Contains(name, id) ==> !IsSubtitleName(name)
  {
    var names := d.Glob(id);
    if FirstSubtitle(names).None? {
      forall name | name in d.files && Contains(name, id)
        ensures !IsSubtitleName(name)
      {
        MatchingMembers(d.order, id, name);
        var i :| 0 <= i < |names| && names[i] == name;
      }
    } else {
      GlobbedSubtitle(d, id);
    }
  }

  /** A subtitle found by a glob is a file of the directory whose name contains the id. */
  lemma GlobbedSubtitle(d: Dir, id: string)
    requires d.Valid() && FirstSubtitle(d.Glob(id)).Some?
    ensures var name := FirstSubtitle(d.Glob(id)).value;
      name in d.files && Contains(name, id) && IsSubtitleName(name)
  {
    MatchingMembers(d.order, id, FirstSubtitle(d.Glob(id)).value);
  }
}
