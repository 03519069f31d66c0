/**
 * The success detector of the boot test (`check_for_epg`): a case-sensitive
 * substring search for the marker that the EPG application is running, over
 * the lines of the locally fetched `sky-messages.log`.
 */
module EpgDetector {

  /** The exact marker `check_for_epg` looks for. */
  const EpgMarker: string := " app 'com.bskyb.epgui' running"

  /** `pat` occurs in `line` starting at position `k`. */
  ghost predicate OccursAt(line: string, pat: string, k: int) {
    0 <= k && k + |pat| <= |line| && line[k..k + |pat|] == pat
  }

  /** `pat` is a substring of `line`, character for character (no case folding). */
  ghost predicate Contains(line: string, pat: string) {
    exists k :: OccursAt(line, pat, k)
  }

  /** Some line of the log contains the EPG marker. */
  ghost predicate HasMarker(lines: seq<string>) {
    exists i :: 0 <= i < |lines| && Contains(lines[i], EpgMarker)
  }

  /**
   * Python's `str.find` searching from `start`: the lowest position at or after
   * `start` where `pat` occurs, or -1 when there is none.
   */
  function FindFrom(line: string, pat: string, start: nat): (r: int)
    requires start <= |line|
    ensures r == -1 || (start <= r && OccursAt(line, pat, r))
    ensures r == -1 ==> forall k :: start <= k ==> !OccursAt(line, pat, k)
    ensures r != -1 ==> forall k :: start <= k < r ==> !OccursAt(line, pat, k)
    decreases |line| - start
  {
    if start + |pat| > |line| then -1
    else if line[start..start + |pat|] == pat then start
    else FindFrom(line, pat, start + 1)
  }

  /** Python's `line.find(pat)`. */
  function Find(line: string, pat: string): (r: int)
    ensures r == -1 <==> !Contains(line, pat)
    ensures r != -1 ==> OccursAt(line, pat, r) && forall k :: 0 <= k < r ==> !OccursAt(line, pat, k)
  {
    FindFrom(line, pat, 0)
  }

  /**
   * `check_for_epg` on the lines already read from the log: 1 as soon as a
   * line contains the marker, 0 when no line does.
   */
  method CheckForEpg(lines: seq<string>) returns (found: int)
    ensures found == 0 || found == 1
    ensures found == 1 <==> HasMarker(lines)
  {
    for i := 0 to |lines|
      invariant forall j :: 0 <= j < i ==> !Contains(lines[j], EpgMarker)
    {
      if Find(lines[i], EpgMarker) != -1 {
        return 1;
      }
    }
    return 0;
  }

  /** The marker is found wherever it stands in a line. */
  lemma MarkerAnywhere(before: string, after: string)
    ensures Contains(before + EpgMarker + after, EpgMarker)
  {
    var line := before + EpgMarker + after;
    assert line[|before|..|before| + |EpgMarker|] == EpgMarker;
    assert OccursAt(line, EpgMarker, |before|);
  }

  /** The marker is found on whichever line it stands, in a log of any length. */
  lemma MarkerOnAnyLine(pre: seq<string>, line: string, post: seq<string>)
    requires Contains(line, EpgMarker)
    ensures HasMarker(pre + [line] + post)
  {
    assert (pre + [line] + post)[|pre|] == line;
  }

  /** An empty log never shows the marker. */
  lemma EmptyLogHasNoMarker()
    ensures !HasMarker([])
  {
  }

  /**
   * An example of the match being case-sensitive: this line, which differs
   * from the marker only in the upper-case application name, is not a match.
   */
  lemma UpperCaseNameIsNoMatch()
    ensures !Contains(" app 'com.bskyb.EPGUI' running", EpgMarker)
  {
    var line := " app 'com.bskyb.EPGUI' running";
    assert |line| == |EpgMarker| && line[17] != EpgMarker[17];
    assert line[0..|EpgMarker|] != EpgMarker;
  }
}
