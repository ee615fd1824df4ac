/**
 * The plugin's settings record, its defaults, the merge `loadSettings`
 * performs over what the host hands back, and the parsing of the
 * path-exceptions text area.
 */
module PluginSettings {
  import opened Wrappers
  import opened Text

  /** `MyPluginSettings` (main.ts:5-8). */
  datatype Settings = Settings(hideByDefault: bool, pathExceptions: seq<string>)

  /** `DEFAULT_SETTINGS` (main.ts:10-13). */
  const DefaultSettings: Settings := Settings(false, [])

  /**
   * A persisted blob as `loadData` returns it: each recognised field may be
   * missing. No blob at all (first run) is `None` around it.
   */
  datatype StoredData = StoredData(hideByDefault: Option<bool>, pathExceptions: Option<seq<string>>)

  const EmptyBlob: StoredData := StoredData(None, None)

  /**
   * `Object.assign({}, DEFAULT_SETTINGS, data)`: each field comes from the
   * blob when the blob has it and from the defaults otherwise; a missing
   * blob contributes nothing.
   */
  function LoadedSettings(data: Option<StoredData>): (s: Settings)
    ensures data.Some? && data.value.hideByDefault.Some? ==> s.hideByDefault == data.value.hideByDefault.value
    ensures data.Some? && data.value.pathExceptions.Some? ==> s.pathExceptions == data.value.pathExceptions.value
    ensures data.None? || data.value.hideByDefault.None? ==> s.hideByDefault == DefaultSettings.hideByDefault
    ensures data.None? || data.value.pathExceptions.None? ==> s.pathExceptions == DefaultSettings.pathExceptions
  {
    match data
    case None => DefaultSettings
    case Some(blob) =>
      Settings(blob.hideByDefault.GetOr(DefaultSettings.hideByDefault),
               blob.pathExceptions.GetOr(DefaultSettings.pathExceptions))
  }

  /** `saveData(this.settings)`: the blob written holds both fields. */
  function SavedData(s: Settings): (d: StoredData)
    ensures d.hideByDefault.Some? && d.pathExceptions.Some?
  {
    StoredData(Some(s.hideByDefault), Some(s.pathExceptions))
  }

  /** A missing blob and an empty one both load as the defaults. */
  lemma LoadWithoutData()
    ensures LoadedSettings(None) == DefaultSettings
    ensures LoadedSettings(Some(EmptyBlob)) == Settings(false, [])
  {
  }

  /** Saving and loading again gives back the same settings. */
  lemma LoadSavedRoundTrip(s: Settings)
    ensures LoadedSettings(Some(SavedData(s))) == s
  {
  }

  /** A path exception as the text area leaves it: non-empty, trimmed and on one line. */
  predicate IsPathEntry(x: string) {
    x != [] && IsTrimmed(x) && '\n' !in x
  }

  predicate AllPathEntries(xs: seq<string>) {
    forall k :: 0 <= k < |xs| ==> IsPathEntry(xs[k])
  }

  /** `r` is `xs` with some entries left out and the rest in their original order. */
  predicate IsSubsequence(r: seq<string>, xs: seq<string>) {
    if r == [] then true
    else if xs == [] then false
    else if r[0] == xs[0] then IsSubsequence(r[1..], xs[1..])
    else IsSubsequence(r, xs[1..])
  }

  /** Each line trimmed, in the same order (main.ts:127). */
  function TrimAll(lines: seq<string>): (r: seq<string>)
    ensures |r| == |lines|
    ensures forall k :: 0 <= k < |r| ==> IsTrimmed(r[k]) && (r[k] == [] <==> AllWhitespace(lines[k]))
    ensures forall k :: 0 <= k < |r| ==> TrimmedAt(lines[k], r[k], |lines[k]| - |TrimStart(lines[k])|)
  {
    seq(|lines|, k requires 0 <= k < |lines| => Trim(lines[k]))
  }

  /** `.filter(p => p.length > 0)`: the non-empty entries, in order. */
  function DropEmpty(xs: seq<string>): (r: seq<string>)
    ensures IsSubsequence(r, xs)
    ensures multiset(r)[[]] == 0
    ensures forall x :: x != [] ==> multiset(r)[x] == multiset(xs)[x]
  {
    if xs == [] then []
    else
      assert xs == [xs[0]] + xs[1..];
      if xs[0] == [] then DropEmpty(xs[1..])
      else [xs[0]] + DropEmpty(xs[1..])
  }

  /** Every entry that survives the filter is a non-empty entry of the input. */
  lemma DropEmptyMembers(xs: seq<string>)
    ensures forall x :: x in DropEmpty(xs) ==> x != [] && x in xs
  {
    var r := DropEmpty(xs);
    forall x | x in r
      ensures x != [] && x in xs
    {
      assert multiset(r)[x] > 0;
    }
  }

  /** Filtering distributes over concatenation, so it keeps the relative order of entries. */
  lemma {:induction false} DropEmptyAppend(xs: seq<string>, ys: seq<string>)
    ensures DropEmpty(xs + ys) == DropEmpty(xs) + DropEmpty(ys)
  {
    if xs == [] {
      assert xs + ys == ys;
    } else {
      assert (xs + ys)[0] == xs[0];
      assert (xs + ys)[1..] == xs[1..] + ys;
      DropEmptyAppend(xs[1..], ys);
    }
  }

  lemma {:induction false} DropEmptyOfNonEmpty(xs: seq<string>)
    requires forall k :: 0 <= k < |xs| ==> xs[k] != []
    ensures DropEmpty(xs) == xs
  {
    if xs != [] {
      DropEmptyOfNonEmpty(xs[1..]);
    }
  }

  /** A slice of a string without `c` has no `c` either. */
  lemma SliceWithout(r: string, s: string, i: int, c: char)
    requires OccursAt(r, s, i) && c !in s
    ensures c !in r
  {
    forall k | 0 <= k < |r|
      ensures r[k] != c
    {
      assert r[k] == s[i + k];
    }
  }

  /**
   * The text-area parse (main.ts:125-128): split on line breaks, trim each
   * line, drop the empty ones. Every entry is a path entry, the entries are
   * the non-empty trimmed lines and they keep the order of the lines.
   */
  function ParsePathExceptions(text: string): (r: seq<string>)
    ensures AllPathEntries(r)
    ensures IsSubsequence(r, TrimAll(Split(text, '\n')))
    ensures forall x :: x != [] ==> multiset(r)[x] == multiset(TrimAll(Split(text, '\n')))[x]
  {
    var lines := Split(text, '\n');
    TrimmedLinesAreEntries(lines);
    DropEmptyMembers(TrimAll(lines));
    DropEmpty(TrimAll(lines))
  }

  /** Trimming lines without line breaks gives entries that are trimmed and without line breaks. */
  lemma TrimmedLinesAreEntries(lines: seq<string>)
    requires forall k :: 0 <= k < |lines| ==> '\n' !in lines[k]
    ensures forall x :: x in TrimAll(lines) && x != [] ==> IsPathEntry(x)
  {
    var trimmed := TrimAll(lines);
    forall j | 0 <= j < |trimmed|
      ensures IsTrimmed(trimmed[j]) && '\n' !in trimmed[j]
    {
      SliceWithout(trimmed[j], lines[j], |lines[j]| - |TrimStart(lines[j])|, '\n');
    }
  }

  /**
   * The text area shows the list joined with line breaks (main.ts:123);
   * parsing that text gives back any list of path entries unchanged.
   */
  lemma ParseJoinRoundTrip(xs: seq<string>)
    requires AllPathEntries(xs)
    ensures ParsePathExceptions(Join(xs, "\n")) == xs
  {
    if xs != [] {
      SplitJoin(xs, '\n');
      assert TrimAll(xs) == xs by {
        forall k | 0 <= k < |xs|
          ensures TrimAll(xs)[k] == xs[k]
        {
          TrimOfTrimmed(xs[k]);
        }
      }
      DropEmptyOfNonEmpty(xs);
    }
  }

  /** Showing a parsed list in the text area and parsing it again changes nothing. */
  lemma ParseShowParse(text: string)
    ensures ParsePathExceptions(Join(ParsePathExceptions(text), "\n")) == ParsePathExceptions(text)
  {
    ParseJoinRoundTrip(ParsePathExceptions(text));
  }
}
