/** The minimal variant of the tool (cold/podman_container_sizes.go): it
    runs `podman ps --size --format json` (running containers only), stops
    with a notice when there are none, and otherwise prints, per container,
    its first name, its image and its two formatted sizes. The first name is
    read as `c.Names[0]` with no check, so a container without names stops
    the program with an index-out-of-range panic after the entries before it
    have been printed; the model makes that panic an outcome. */
module ColdReport {
  import opened SizeFormat
  import opened Containers

  /** The block printed for one container. */
  datatype Entry = Entry(name: string, image: string, rw: SizeText, root: SizeText)

  /** How a run ends: a fatal diagnostic, the empty notice, the full listing,
      or the panic at record `at`, with the entries printed before it. */
  datatype ColdOutput =
    | Aborted(message: string)
    | NoneRunning(notice: string)
    | Listing(entries: seq<Entry>)
    | Panicked(printed: seq<Entry>, at: nat)

  const NoneRunningNotice: string := "No running containers found."

  /** The fixed query of this variant. */
  const Query: seq<string> := ["ps", "--size", "--format", "json"]

  /** A record the loop body can print without panicking. */
  predicate Printable(c: Container) {
    |c.names| > 0 && IsInt64(c.size.rwSize) && IsInt64(c.size.rootFsSize)
  }

  function EntryOf(c: Container): Entry
    requires Printable(c)
  {
    Entry(c.names[0], c.image, Rendered(c.size.rwSize), Rendered(c.size.rootFsSize))
  }

  /** The entries printed for a list of records, in order. */
  function EntriesOf(s: seq<Container>): (entries: seq<Entry>)
    requires forall i :: 0 <= i < |s| ==> Printable(s[i])
    ensures |entries| == |s|
    decreases |s|
  {
    if s == [] then [] else EntriesOf(s[..|s| - 1]) + [EntryOf(s[|s| - 1])]
  }

  /** Entry i shows record i, under the same display name the full variant
      would use. */
  lemma {:induction false} EntriesOfAt(s: seq<Container>, i: int)
    requires forall j :: 0 <= j < |s| ==> Printable(s[j])
    requires 0 <= i < |s|
    ensures EntriesOf(s)[i] == EntryOf(s[i])
    ensures EntriesOf(s)[i].name == DisplayName(s[i])
    decreases |s|
  {
    if i < |s| - 1 {
      EntriesOfAt(s[..|s| - 1], i);
    }
  }

  /** Printing one more record appends its entry. */
  lemma EntriesOfStep(s: seq<Container>, i: int)
    requires 0 <= i < |s|
    requires forall j :: 0 <= j <= i ==> Printable(s[j])
    ensures EntriesOf(s[..i + 1]) == EntriesOf(s[..i]) + [EntryOf(s[i])]
  {
    assert s[..i + 1][..i] == s[..i];
  }

  method FormatEntry(c: Container) returns (e: Entry)
    requires Printable(c)
    ensures e == EntryOf(c)
  {
    var rw := FormatSize(c.size.rwSize);
    var root := FormatSize(c.size.rootFsSize);
    e := Entry(c.names[0], c.image, rw, root);
  }

  /** `main` of the minimal variant, with the subprocess run and JSON
      decoding given as `podman`. */
  method Run(podman: seq<string> -> CommandOutcome) returns (out: ColdOutput)
    requires podman(PodmanArgs(false)).Decoded? ==>
      forall i :: 0 <= i < |podman(PodmanArgs(false)).records| ==>
        IsInt64(podman(PodmanArgs(false)).records[i].size.rwSize) &&
        IsInt64(podman(PodmanArgs(false)).records[i].size.rootFsSize)
    ensures out.Aborted? <==> !podman(PodmanArgs(false)).Decoded?
    ensures podman(PodmanArgs(false)).CommandFailed? ==>
      out == Aborted("Failed to run podman: " + podman(PodmanArgs(false)).cause)
    ensures podman(PodmanArgs(false)).Malformed? ==>
      out == Aborted("Failed to parse JSON: " + podman(PodmanArgs(false)).cause)
    ensures out.NoneRunning? <==> podman(PodmanArgs(false)) == Decoded([])
    ensures out.NoneRunning? ==> out.notice == NoneRunningNotice
    ensures out.Panicked? <==>
      && podman(PodmanArgs(false)).Decoded?
      && exists k :: 0 <= k < |podman(PodmanArgs(false)).records| && podman(PodmanArgs(false)).records[k].names == []
    ensures out.Panicked? ==>
      && out.at < |podman(PodmanArgs(false)).records|
      && podman(PodmanArgs(false)).records[out.at].names == []
      && (forall j :: 0 <= j < out.at ==> Printable(podman(PodmanArgs(false)).records[j]))
      && out.printed == EntriesOf(podman(PodmanArgs(false)).records[..out.at])
    ensures out.Listing? ==>
      && podman(PodmanArgs(false)).Decoded?
      && podman(PodmanArgs(false)).records != []
      && (forall j :: 0 <= j < |podman(PodmanArgs(false)).records| ==> Printable(podman(PodmanArgs(false)).records[j]))
      && out.entries == EntriesOf(podman(PodmanArgs(false)).records)
  {
    assert Query == PodmanArgs(false);
    var outcome := podman(Query);
    if outcome.CommandFailed? {
      return Aborted("Failed to run podman: " + outcome.cause);
    }
    if outcome.Malformed? {
      return Aborted("Failed to parse JSON: " + outcome.cause);
    }
    var containers := outcome.records;
    if |containers| == 0 {
      return NoneRunning(NoneRunningNotice);
    }
    var entries: seq<Entry> := [];
    for i := 0 to |containers|
      invariant forall j :: 0 <= j < i ==> Printable(containers[j])
      invariant entries == EntriesOf(containers[..i])
    {
      var c := containers[i];
      if |c.names| == 0 {
        return Panicked(entries, i);
      }
      var e := FormatEntry(c);
      EntriesOfStep(containers, i);
      entries := entries + [e];
    }
    assert containers[..|containers|] == containers;
    out := Listing(entries);
  }
}
