/** The archive writer: which format an output name selects, and the writer's
    observable behaviour (the paths passed to `Add`, and whether `Close` was
    reached). The encodings themselves are not part of this model. */
module Archive {

  datatype Option<T> = None | Some(value: T)

  datatype Format = Zip | Tar | Tgz

  predicate HasSuffix(s: string, suffix: string)
  {
    |suffix| <= |s| && s[|s| - |suffix|..] == suffix
  }

  /** The format chosen by the output name's suffix (pack.go:108-125): ".zip"
      is tried first, then ".tar", then ".tgz" and ".tar.gz"; any other name is
      unsupported. */
  function FormatOf(output: string): Option<Format>
  {
    if HasSuffix(output, ".zip") then Some(Zip)
    else if HasSuffix(output, ".tar") then Some(Tar)
    else if HasSuffix(output, ".tgz") || HasSuffix(output, ".tar.gz") then Some(Tgz)
    else None
  }

  /** The extension a name needs to select `f`. */
  function Ext(f: Format): string
  {
    match f
    case Zip => ".zip"
    case Tar => ".tar"
    case Tgz => ".tgz"
  }

  lemma LastChar(s: string, suffix: string)
    requires HasSuffix(s, suffix) && suffix != []
    ensures s[|s| - 1] == suffix[|suffix| - 1]
  {
    // Dafny finds this proof alone; these steps keep its resource use low.
    assert s[|s| - |suffix|..][|suffix| - 1] == s[|s| - 1];
  }

  lemma HasSuffixAppend(base: string, suffix: string)
    ensures HasSuffix(base + suffix, suffix)
  {
    // Dafny finds this proof alone; these steps keep its resource use low.
    assert (base + suffix)[|base|..] == suffix;
  }

  /** The suffixes are mutually exclusive, so the order in which the switch
      tries them does not change the outcome: each format is selected exactly
      when the name carries one of its own suffixes. */
  lemma FormatOfExact(output: string)
    ensures FormatOf(output) == Some(Zip) <==> HasSuffix(output, ".zip")
    ensures FormatOf(output) == Some(Tar) <==> HasSuffix(output, ".tar")
    ensures FormatOf(output) == Some(Tgz) <==> HasSuffix(output, ".tgz") || HasSuffix(output, ".tar.gz")
    ensures FormatOf(output) == None <==>
      !HasSuffix(output, ".zip") && !HasSuffix(output, ".tar") &&
      !HasSuffix(output, ".tgz") && !HasSuffix(output, ".tar.gz")
  {
    if HasSuffix(output, ".zip") { LastChar(output, ".zip"); }
    if HasSuffix(output, ".tar") { LastChar(output, ".tar"); }
    if HasSuffix(output, ".tgz") { LastChar(output, ".tgz"); }
    if HasSuffix(output, ".tar.gz") { LastChar(output, ".tar.gz"); }
  }

  /** Any name ending in a format's extension selects that format, and a name
      ending in ".tar.gz" selects the gzipped tar format although it also
      contains ".tar". */
  lemma FormatOfExt(base: string, f: Format)
    ensures FormatOf(base + Ext(f)) == Some(f)
    ensures FormatOf(base + ".tar.gz") == Some(Tgz)
  {
    HasSuffixAppend(base, Ext(f));
    FormatOfExact(base + Ext(f));
    HasSuffixAppend(base, ".tar.gz");
    FormatOfExact(base + ".tar.gz");
  }

  /** An open archive of one format. `addOk` and `closeOk` stand for the
      outcome of the I/O that `Add` and `Close` perform. */
  class Archiver {
    const format: Format
    const addOk: string -> bool
    const closeOk: bool
    /** The paths passed to `Add`, in order. */
    var added: seq<string>
    /** `Close` was called. */
    var closed: bool

    constructor (format: Format, addOk: string -> bool, closeOk: bool)
      ensures this.format == format && this.addOk == addOk && this.closeOk == closeOk
      ensures added == [] && !closed
    {
      this.format := format;
      this.addOk := addOk;
      this.closeOk := closeOk;
      added := [];
      closed := false;
    }

    /** Append one entry; an open archive only. */
    method Add(path: string) returns (ok: bool)
      requires !closed
      modifies this
      ensures added == old(added) + [path] && !closed
      ensures ok == addOk(path)
    {
      added := added + [path];
      ok := addOk(path);
    }

    /** Finish the archive; afterwards no entry can be added. */
    method Close() returns (ok: bool)
      requires !closed
      modifies this
      ensures closed && added == old(added)
      ensures ok == closeOk
    {
      closed := true;
      ok := closeOk;
    }
  }
}
