/**
 * The package tooltip helpers of src/globals.cpp: the one-line summary shown
 * for a package (its description without the first word, capped at 120
 * characters, followed by the installed size when one is known) and the
 * guard that skips the file-owner lookup for an empty path.
 *
 * The package repository, the installed-size query and the file-owner query
 * are external; they are parameters here.
 */
module Globals {
  import opened Wrappers

  /** Status of a package as the repository reports it. */
  datatype PackageStatus =
    | Installed
    | NonInstalled
    | Outdated
    | Newer
    | Foreign
    | ForeignOutdated

  /** The part of a repository entry the tooltip reads. */
  datatype PackageData = PackageData(description: string, status: PackageStatus)

  /** Longest summary kept before the ellipsis is appended. */
  const MaxSummary: nat := 120
  const Ellipsis: string := " ..."
  const SizeSeparator: string := " -> "

  // ---------------------------------------------------------------------
  // The QString primitives the summary is built from
  // ---------------------------------------------------------------------

  /** Characters that QString::trimmed removes: the ASCII blanks 9..13 and
      space, NEL, NO-BREAK SPACE and the Unicode separators. */
  predicate IsSpace(c: char) {
    c == ' ' || ('\t' <= c <= '\r') || c == '\U{0085}' || c == '\U{00A0}'
    || c == '\U{1680}' || ('\U{2000}' <= c <= '\U{200A}')
    || c == '\U{2028}' || c == '\U{2029}' || c == '\U{202F}'
    || c == '\U{205F}' || c == '\U{3000}'
  }

  /** The number of white-space characters `s` starts with. */
  function LeadingSpaces(s: string): (k: nat)
    ensures k <= |s|
    ensures forall i :: 0 <= i < k ==> IsSpace(s[i])
    ensures k < |s| ==> !IsSpace(s[k])
  {
    if s != [] && IsSpace(s[0]) then 1 + LeadingSpaces(s[1..]) else 0
  }

  /** `s` with its trailing white space removed. */
  function TrimEnd(s: string): (r: string)
    ensures |r| <= |s| && r == s[..|r|]
    ensures forall i :: |r| <= i < |s| ==> IsSpace(s[i])
    ensures r == [] || !IsSpace(r[|r| - 1])
  {
    if s != [] && IsSpace(s[|s| - 1]) then TrimEnd(s[..|s| - 1]) else s
  }

  /** QString::trimmed: white space removed from both ends. The result is
      the slice of `s` that follows its leading white space and precedes its
      trailing white space. */
  function Trimmed(s: string): (r: string)
    ensures LeadingSpaces(s) + |r| <= |s|
    ensures r == s[LeadingSpaces(s)..LeadingSpaces(s) + |r|]
    ensures forall i :: LeadingSpaces(s) + |r| <= i < |s| ==> IsSpace(s[i])
    ensures r == [] || (!IsSpace(r[0]) && !IsSpace(r[|r| - 1]))
    ensures r == [] <==> forall i :: 0 <= i < |s| ==> IsSpace(s[i])
  {
    var k := LeadingSpaces(s);
    var t := s[k..];
    var r := TrimEnd(t);
    assert forall i :: k + |r| <= i < |s| ==> s[i] == t[i - k];
    assert r == [] ==> forall i :: 0 <= i < |s| ==> IsSpace(s[i]);
    r
  }

  /** The emptiness test the tooltip applies to a description. */
  predicate IsBlank(description: string) {
    Trimmed(description) == []
  }

  /** QString::indexOf for a single character: the first position of `c`,
      or -1 when `s` does not contain it. */
  function IndexOf(s: string, c: char): (r: int)
    ensures -1 <= r < |s|
    ensures r == -1 <==> c !in s
    ensures r >= 0 ==> s[r] == c && c !in s[..r]
  {
    if s == [] then -1
    else if s[0] == c then 0
    else
      var k := IndexOf(s[1..], c);
      assert s[1..][..k + 1] == s[1..k + 2];
      if k == -1 then -1 else k + 1
  }

  /** QString::mid(position): the characters from `position` to the end,
      empty past the end. */
  function Mid(s: string, position: nat): (r: string)
    ensures position <= |s| ==> |r| == |s| - position && s == s[..position] + r
    ensures position > |s| ==> r == []
  {
    if position <= |s| then s[position..] else []
  }

  /** QString::chop(n): the last `n` characters removed; everything when
      `n` reaches the length, nothing when `n` is not positive. */
  function Chop(s: string, n: int): (r: string)
    ensures n <= 0 ==> r == s
    ensures 0 < n <= |s| ==> |r| == |s| - n && s == r + s[|r|..]
    ensures n >= |s| ==> r == []
  {
    if n >= |s| then [] else if n > 0 then s[..|s| - n] else s
  }

  // ---------------------------------------------------------------------
  // showPackageInfo
  // ---------------------------------------------------------------------

  /** The description without its first word: everything after the first
      space, or the whole description when it has no space. */
  function AfterFirstSpace(description: string): (r: string)
    ensures |r| <= |description| && r == description[|description| - |r|..]
    ensures ' ' !in description ==> r == description
    ensures ' ' in description ==>
              |r| < |description|
              && description[|description| - |r| - 1] == ' '
              && ' ' !in description[..|description| - |r| - 1]
  {
    Mid(description, IndexOf(description, ' ') + 1)
  }

  /** The summary capped at MaxSummary characters, an ellipsis marking a cut. */
  function Truncated(s: string): (r: string)
    ensures |s| <= MaxSummary ==> r == s
    ensures |s| > MaxSummary ==>
              |r| == MaxSummary + |Ellipsis|
              && r[..MaxSummary] == s[..MaxSummary]
              && r[MaxSummary..] == Ellipsis
    ensures |r| <= MaxSummary + |Ellipsis|
  {
    if |s| > MaxSummary then Chop(s, |s| - MaxSummary) + Ellipsis else s
  }

  /** The summary part of the tooltip: the description without its first
      word, cut to MaxSummary characters. It is empty exactly when nothing
      follows the first space. */
  function Summary(description: string): (r: string)
    ensures |r| <= MaxSummary + |Ellipsis|
    ensures ' ' !in description && |description| <= MaxSummary ==> r == description
    ensures r == "" <==> AfterFirstSpace(description) == ""
  {
    var rest := AfterFirstSpace(description);
    assert |Truncated(rest)| == 0 <==> |rest| == 0;
    Truncated(rest)
  }

  /**
   * showPackageInfo: the tooltip for package `name`.
   * `lookup` stands for the first repository entry with that name and
   * `installedSizeOf(name, foreign)` for the installed-size query, which is
   * told whether the package is foreign.
   */
  function ShowPackageInfo(
    name: string,
    lookup: string -> Option<PackageData>,
    installedSizeOf: (string, bool) -> string
  ): (r: string)
    ensures lookup(name).None? ==> r == ""
    ensures lookup(name).Some? && IsBlank(lookup(name).value.description) ==> r == ""
    ensures lookup(name).Some? && !IsBlank(lookup(name).value.description) ==>
              var package := lookup(name).value;
              var foreign := package.status == Foreign || package.status == ForeignOutdated;
              var size := installedSizeOf(name, foreign);
              var summary := Summary(package.description);
              (size == "" ==> r == summary)
              && (size != "" ==> r == summary + SizeSeparator + size)
  {
    match lookup(name)
    case None => ""
    case Some(package) =>
      if IsBlank(package.description) then ""
      else
        var desc := Summary(package.description);
        var isForeignPkg := package.status == Foreign || package.status == ForeignOutdated;
        var installedSize := installedSizeOf(name, isForeignPkg);
        if installedSize != "" then desc + SizeSeparator + installedSize else desc
  }

  // ---------------------------------------------------------------------
  // searchPacmanPackagesByFile
  // ---------------------------------------------------------------------

  /** The path handed to the file-owner lookup, or None when the lookup is
      skipped. */
  function OwnerQuery(file: string): (q: Option<string>)
    ensures q.None? <==> file == ""
    ensures q.Some? ==> q.value == file
  {
    if file != "" then Some(file) else None
  }

  /** searchPacmanPackagesByFile: the package owning `file`, as reported by
      `ownerOf`, or "" for an empty path. */
  function PackageByFile(file: string, ownerOf: string -> string): (r: string)
    ensures file == "" ==> r == ""
    ensures file != "" ==> r == ownerOf(file)
  {
    match OwnerQuery(file)
    case None => ""
    case Some(path) => ownerOf(path)
  }

  // ---------------------------------------------------------------------
  // Properties
  // ---------------------------------------------------------------------

  /** For a package that is found and has a non-blank description, the
      tooltip is empty exactly when nothing follows the description's first
      space and no installed size is known. */
  lemma {:induction false} ShowPackageInfoEmptyIff(
    name: string,
    lookup: string -> Option<PackageData>,
    installedSizeOf: (string, bool) -> string,
    package: PackageData
  )
    requires lookup(name) == Some(package) && !IsBlank(package.description)
    ensures ShowPackageInfo(name, lookup, installedSizeOf) == "" <==>
              AfterFirstSpace(package.description) == ""
              && installedSizeOf(name, package.status == Foreign || package.status == ForeignOutdated) == ""
  {
    var size := installedSizeOf(name, package.status == Foreign || package.status == ForeignOutdated);
    var summary := Summary(package.description);
    var r := ShowPackageInfo(name, lookup, installedSizeOf);
    if size != "" {
      assert r == summary + SizeSeparator + size;
      assert |r| == |summary| + |SizeSeparator| + |size|;
    } else {
      assert r == summary;
    }
  }

  /** The text after the first space is empty exactly when the description
      is empty or its first space is its last character. */
  lemma {:induction false} AfterFirstSpaceEmptyIff(description: string)
    ensures AfterFirstSpace(description) == "" <==>
              description == "" || IndexOf(description, ' ') == |description| - 1
  {
    var k := IndexOf(description, ' ');
    var r := Mid(description, k + 1);
    assert AfterFirstSpace(description) == r;
    assert |r| == |description| - (k + 1);
    assert r == [] <==> |r| == 0;
  }
}
