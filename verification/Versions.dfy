/** CWMP versions and their negotiation from a comma-separated list. */
module Versions {
  import opened Wrappers
  import opened Text

  datatype Version = UNKNOWN | V1_0 | V1_1 | V1_2 | V1_3 | V1_4 {
    function VersionMajor(): int {
      1
    }

    function VersionMinor(): int {
      match this
      case V1_0 => 0
      case V1_1 => 1
      case V1_2 => 2
      case V1_3 => 3
      case V1_4 => 4
      case UNKNOWN => -1
    }

    function ToString(): string {
      match this
      case V1_0 => "1.0"
      case V1_1 => "1.1"
      case V1_2 => "1.2"
      case V1_3 => "1.3"
      case V1_4 => "1.4"
      case UNKNOWN => "unknown"
    }
  }

  const ALL_VERSIONS: seq<Version> := [V1_0, V1_1, V1_2, V1_3, V1_4]

  /** fmt.Sscanf(text, "%d.%d"): the two numbers, or nothing when the text has another form. */
  type Scanner = string -> Option<(int, int)>

  /** v is supported and some item of the list reads as its number. */
  ghost predicate Listed(v: Version, list: string, scan: Scanner) {
    && v != UNKNOWN
    && list != ""
    && exists part :: part in Split(list, ',') && scan(TrimSpace(part)) == Some((v.VersionMajor(), v.VersionMinor()))
  }

  /** What a negotiation result must be: the highest listed version, unknown if none is listed. */
  ghost predicate IsMaxListed(v: Version, list: string, scan: Scanner) {
    && (v != UNKNOWN ==> Listed(v, list, scan))
    && forall u :: Listed(u, list, scan) ==> u.VersionMinor() <= v.VersionMinor()
  }

  function Higher(a: Version, b: Version): Version {
    if b.VersionMinor() > a.VersionMinor() then b else a
  }

  function Recognise(part: string, scan: Scanner): Version {
    match scan(TrimSpace(part))
    case Some((1, 0)) => V1_0
    case Some((1, 1)) => V1_1
    case Some((1, 2)) => V1_2
    case Some((1, 3)) => V1_3
    case Some((1, 4)) => V1_4
    case _ => UNKNOWN
  }

  function HighestOf(parts: seq<string>, scan: Scanner): Version {
    if parts == [] then UNKNOWN
    else Higher(HighestOf(parts[..|parts| - 1], scan), Recognise(parts[|parts| - 1], scan))
  }

  /** The negotiated version as a function of the list. */
  function MaxCommon(list: string, scan: Scanner): Version {
    if list == "" then UNKNOWN else HighestOf(Split(list, ','), scan)
  }

  /** The negotiation loop: running maxima of major and minor over the items and all known versions. */
  method MaxCommonVersion(list: string, scan: Scanner) returns (version: Version)
    ensures version == MaxCommon(list, scan)
  {
    version := UNKNOWN;
    if list == "" {
      return;
    }
    var maxMajor, maxMinor := -1, -1;
    var items := Split(list, ',');
    for i := 0 to |items|
      invariant version == HighestOf(items[..i], scan)
      invariant maxMajor == (if version == UNKNOWN then -1 else 1) && maxMinor == version.VersionMinor()
    {
      assert items[..i + 1][..i] == items[..i];
      match scan(TrimSpace(items[i])) {
        case None =>
        case Some((major, minor)) =>
          ghost var before := version;
          for j := 0 to |ALL_VERSIONS|
            invariant maxMajor == (if version == UNKNOWN then -1 else 1) && maxMinor == version.VersionMinor()
            invariant version == if major == 1 && 0 <= minor < j then Higher(before, ALL_VERSIONS[minor]) else before
          {
            var available := ALL_VERSIONS[j];
            if major == available.VersionMajor() && minor == available.VersionMinor() {
              if major > maxMajor || (major == maxMajor && minor > maxMinor) {
                maxMajor, maxMinor, version := major, minor, available;
              }
            }
          }
      }
    }
    assert items[..|items|] == items;
  }

  lemma {:induction false} HighestOfBounds(parts: seq<string>, scan: Scanner)
    ensures forall p :: p in parts ==> Recognise(p, scan).VersionMinor() <= HighestOf(parts, scan).VersionMinor()
    ensures HighestOf(parts, scan) == UNKNOWN || exists p :: p in parts && Recognise(p, scan) == HighestOf(parts, scan)
  {
    if parts != [] {
      var front, last := parts[..|parts| - 1], parts[|parts| - 1];
      HighestOfBounds(front, scan);
      assert parts == front + [last];
    }
  }

  lemma MaxCommonIsListedMaximum(list: string, scan: Scanner)
    ensures IsMaxListed(MaxCommon(list, scan), list, scan)
  {
    var m := MaxCommon(list, scan);
    if list != "" {
      HighestOfBounds(Split(list, ','), scan);
      forall u | Listed(u, list, scan) ensures u.VersionMinor() <= m.VersionMinor() {
        var part :| part in Split(list, ',') && scan(TrimSpace(part)) == Some((u.VersionMajor(), u.VersionMinor()));
        assert Recognise(part, scan) == u;
      }
      if m != UNKNOWN {
        var part :| part in Split(list, ',') && Recognise(part, scan) == m;
        assert scan(TrimSpace(part)) == Some((m.VersionMajor(), m.VersionMinor()));
      }
    }
  }

  /** The result is the maximum supported version listed, and nothing else is. */
  lemma MaxCommonIsMaximum(list: string, scan: Scanner, v: Version)
    ensures v == MaxCommon(list, scan) <==> IsMaxListed(v, list, scan)
  {
    MaxCommonIsListedMaximum(list, scan);
  }

  /** Nothing is negotiated exactly when no supported version is listed. */
  lemma UnknownIffNoneListed(list: string, scan: Scanner)
    ensures MaxCommon(list, scan) == UNKNOWN <==> forall u :: !Listed(u, list, scan)
  {
    MaxCommonIsMaximum(list, scan, MaxCommon(list, scan));
  }

  lemma {:induction false} HighestOfConcat(a: seq<string>, b: seq<string>, scan: Scanner)
    ensures HighestOf(a + b, scan) == Higher(HighestOf(a, scan), HighestOf(b, scan))
  {
    if b == [] {
      assert a + b == a;
    } else {
      assert (a + b)[..|a + b| - 1] == a + b[..|b| - 1];
      HighestOfConcat(a, b[..|b| - 1], scan);
    }
  }

  /** Negotiation turns joining lists into taking the higher version, for all strings. */
  lemma MaxCommonOfJoined(a: string, b: string, scan: Scanner)
    requires scan("") == None
    ensures MaxCommon(a + "," + b, scan) == Higher(MaxCommon(a, scan), MaxCommon(b, scan))
  {
    SplitJoined(a, ',', b);
    HighestOfConcat(Split(a, ','), Split(b, ','), scan);
    assert Split("", ',') == [""] && TrimSpace("") == "";
    assert [""][..0] == [];
    assert HighestOf([""], scan) == UNKNOWN;
  }

  /** Order and repetition of the items do not matter. */
  lemma MaxCommonIgnoresOrder(a: string, b: string, scan: Scanner)
    requires scan("") == None
    requires forall p :: p in Split(a, ',') <==> p in Split(b, ',')
    ensures MaxCommon(a, scan) == MaxCommon(b, scan)
  {
    HighestOfBounds(Split(a, ','), scan);
    HighestOfBounds(Split(b, ','), scan);
    assert forall p: string :: p in [""] ==> Recognise(p, scan) == UNKNOWN;
    assert Split("", ',') == [""] && TrimSpace("") == "";
  }

  /** A version the server prints is the version it negotiates from its own text. */
  lemma MaxCommonOfToString(v: Version, scan: Scanner)
    requires v != UNKNOWN
    requires scan(v.ToString()) == Some((v.VersionMajor(), v.VersionMinor()))
    ensures MaxCommon(v.ToString(), scan) == v
  {
    var s := v.ToString();
    assert Free(s, ',') && Trimmed(s);
    TrimSpaceFixpoints(s);
    assert Split(s, ',') == [s];
    assert [s][..0] == [];
    assert HighestOf([s], scan) == Higher(HighestOf([], scan), Recognise(s, scan));
  }

  /** A version the server knows is written as its two numbers with a dot between them. */
  lemma VersionText(v: Version)
    requires v != UNKNOWN
    ensures v.ToString() == Itoa(v.VersionMajor()) + "." + Itoa(v.VersionMinor())
  {
    assert NatDigits(0) == "0" && NatDigits(1) == "1" && NatDigits(2) == "2" && NatDigits(3) == "3"
        && NatDigits(4) == "4";
  }
}
