/** `determine_block` of `TopologyUtilities`: the rule that assigns a device to a block from its
    hostname keywords, its IP and its type. */
module BlockRules {
  import opened Wrappers
  import opened Text

  /** The blocks the rule can assign. */
  const BlockNames: set<string> := {
    "core-block", "internet-block", "oob-block", "wan-block", "extranet-block",
    "replication-block", "datacenter-block", "visibility-block", "dmz-block", "external-block"
  }

  /** The two core-switch addresses that always belong to the core block. */
  const CoreAddresses: set<string> := {"10.99.18.253", "10.99.18.254"}

  /** The device types that fall back to the DMZ block. */
  const PerimeterTypes: set<string> := {"firewall", "ips", "proxy"}

  // ---------------------------------------------------------------- name sanitising

  /** Drops the leading characters that are not ASCII letters or digits. */
  function SkipNonAlnum(s: string): (r: string)
    ensures |r| <= |s|
    ensures r == "" || IsAlnum(r[0])
    decreases |s|
  {
    if |s| > 0 && !IsAlnum(s[0]) then SkipNonAlnum(s[1..]) else s
  }

  /** `re.sub(r'[^A-Za-z0-9]+', ' ', s)`: each maximal run of other characters becomes one space. */
  function SquashRuns(s: string): string
    decreases |s|
  {
    if |s| == 0 then ""
    else if IsAlnum(s[0]) then [s[0]] + SquashRuns(s[1..])
    else " " + SquashRuns(SkipNonAlnum(s[1..]))
  }

  /** The sanitised, upper-cased hostname the keywords are searched in. */
  function SanitizeName(hostname: string): string {
    Upper(Strip(SquashRuns(hostname)))
  }

  /** `' WORD ' in f' {name} '`: the phrase occurs in the name as whole words. */
  predicate HasWord(name: string, phrase: string) {
    Contains(" " + name + " ", " " + phrase + " ")
  }

  // ---------------------------------------------------------------- determine_block

  /** `determine_block(hostname, ip, device_type)` */
  function DetermineBlock(hostname: Option<string>, ip: Option<string>, deviceType: Option<string>): (block: string)
    ensures block == "" || block in BlockNames
  {
    var name := SanitizeName(hostname.GetOr(""));
    var ipStr := Strip(ip.GetOr(""));
    var dtype := Lower(Strip(deviceType.GetOr("")));
    if dtype == "isp" then ""
    else if ipStr in CoreAddresses then "core-block"
    else if dtype == "core_switch" then "core-block"
    else if HasWord(name, "COR") || HasWord(name, "CORE") then "core-block"
    else if HasWord(name, "INT") || HasWord(name, "INTERNET") then "internet-block"
    else if HasWord(name, "OOB") || HasWord(name, "OUT OF BAND") then "oob-block"
    else if HasWord(name, "WAN") || HasWord(name, "WIDE AREA") then "wan-block"
    else if HasWord(name, "EXTNET") || HasWord(name, "EXTRANET") || HasWord(name, "PARTNER") then "extranet-block"
    else if HasWord(name, "OTV") || HasWord(name, "REPL") || HasWord(name, "REPLICATION") then "replication-block"
    else if HasWord(name, "DC") || HasWord(name, "DATACENTER") || HasWord(name, "ACI") then "datacenter-block"
    else if HasWord(name, "VIS") || HasWord(name, "VISIBILITY") || HasWord(name, "MONITOR") then "visibility-block"
    else if HasWord(name, "DMZ") || HasWord(name, "PERIMETER") || HasWord(name, "BORDER") then "dmz-block"
    else if HasWord(name, "EXT") || HasWord(name, "EXTERNAL") || HasWord(name, "EDGE") then "external-block"
    else if dtype == "firewall" then "dmz-block"
    else if dtype == "ips" then "dmz-block"
    else if dtype == "proxy" then "dmz-block"
    else ""
  }

  // ---------------------------------------------------------------- the rule as a table

  /** One keyword rule: if any of the phrases occurs as whole words, the device goes to `block`. */
  datatype KeywordRule = KeywordRule(phrases: seq<string>, block: string)

  /** The keyword rules in the order they are tried. */
  const KeywordRules: seq<KeywordRule> := [
    KeywordRule(["COR", "CORE"], "core-block"),
    KeywordRule(["INT", "INTERNET"], "internet-block"),
    KeywordRule(["OOB", "OUT OF BAND"], "oob-block"),
    KeywordRule(["WAN", "WIDE AREA"], "wan-block"),
    KeywordRule(["EXTNET", "EXTRANET", "PARTNER"], "extranet-block"),
    KeywordRule(["OTV", "REPL", "REPLICATION"], "replication-block"),
    KeywordRule(["DC", "DATACENTER", "ACI"], "datacenter-block"),
    KeywordRule(["VIS", "VISIBILITY", "MONITOR"], "visibility-block"),
    KeywordRule(["DMZ", "PERIMETER", "BORDER"], "dmz-block"),
    KeywordRule(["EXT", "EXTERNAL", "EDGE"], "external-block")
  ]

  predicate AnyPhrase(name: string, phrases: seq<string>) {
    exists k :: 0 <= k < |phrases| && HasWord(name, phrases[k])
  }

  /** The block of the first rule with a phrase in `name`, or "" when no rule fires. */
  function FirstKeywordBlock(name: string, rules: seq<KeywordRule>): string
    decreases |rules|
  {
    if |rules| == 0 then ""
    else if AnyPhrase(name, rules[0].phrases) then rules[0].block
    else FirstKeywordBlock(name, rules[1..])
  }

  lemma AnyPhrase2(name: string, p0: string, p1: string)
    ensures AnyPhrase(name, [p0, p1]) <==> HasWord(name, p0) || HasWord(name, p1)
  {
    var ps := [p0, p1];
    if HasWord(name, p0) { assert HasWord(name, ps[0]); }
    if HasWord(name, p1) { assert HasWord(name, ps[1]); }
  }

  lemma AnyPhrase3(name: string, p0: string, p1: string, p2: string)
    ensures AnyPhrase(name, [p0, p1, p2]) <==> HasWord(name, p0) || HasWord(name, p1) || HasWord(name, p2)
  {
    var ps := [p0, p1, p2];
    if HasWord(name, p0) { assert HasWord(name, ps[0]); }
    if HasWord(name, p1) { assert HasWord(name, ps[1]); }
    if HasWord(name, p2) { assert HasWord(name, ps[2]); }
  }

  /** The keyword part of `determine_block` is the first-match reading of the rule table. */
  lemma {:induction false} KeywordRulesInOrder(name: string)
    ensures FirstKeywordBlock(name, KeywordRules) ==
      if HasWord(name, "COR") || HasWord(name, "CORE") then "core-block"
      else if HasWord(name, "INT") || HasWord(name, "INTERNET") then "internet-block"
      else if HasWord(name, "OOB") || HasWord(name, "OUT OF BAND") then "oob-block"
      else if HasWord(name, "WAN") || HasWord(name, "WIDE AREA") then "wan-block"
      else if HasWord(name, "EXTNET") || HasWord(name, "EXTRANET") || HasWord(name, "PARTNER") then "extranet-block"
      else if HasWord(name, "OTV") || HasWord(name, "REPL") || HasWord(name, "REPLICATION") then "replication-block"
      else if HasWord(name, "DC") || HasWord(name, "DATACENTER") || HasWord(name, "ACI") then "datacenter-block"
      else if HasWord(name, "VIS") || HasWord(name, "VISIBILITY") || HasWord(name, "MONITOR") then "visibility-block"
      else if HasWord(name, "DMZ") || HasWord(name, "PERIMETER") || HasWord(name, "BORDER") then "dmz-block"
      else if HasWord(name, "EXT") || HasWord(name, "EXTERNAL") || HasWord(name, "EDGE") then "external-block"
      else ""
  {
    var r := KeywordRules;
    AnyPhrase2(name, "COR", "CORE");
    AnyPhrase2(name, "INT", "INTERNET");
    AnyPhrase2(name, "OOB", "OUT OF BAND");
    AnyPhrase2(name, "WAN", "WIDE AREA");
    AnyPhrase3(name, "EXTNET", "EXTRANET", "PARTNER");
    AnyPhrase3(name, "OTV", "REPL", "REPLICATION");
    AnyPhrase3(name, "DC", "DATACENTER", "ACI");
    AnyPhrase3(name, "VIS", "VISIBILITY", "MONITOR");
    AnyPhrase3(name, "DMZ", "PERIMETER", "BORDER");
    AnyPhrase3(name, "EXT", "EXTERNAL", "EDGE");
    assert r[1..][1..][1..][1..][1..][1..][1..][1..][1..][1..] == [];
    assert FirstKeywordBlock(name, r[1..][1..][1..][1..][1..][1..][1..][1..][1..][1..]) == "";
  }

  /** `determine_block` in full, read as: ISP first, then the core addresses and type, then the
      first keyword rule that fires, then the perimeter types, else no block. */
  lemma DetermineBlockPrecedence(hostname: Option<string>, ip: Option<string>, deviceType: Option<string>)
    ensures
      var name := SanitizeName(hostname.GetOr(""));
      var dtype := Lower(Strip(deviceType.GetOr("")));
      DetermineBlock(hostname, ip, deviceType) ==
        if dtype == "isp" then ""
        else if Strip(ip.GetOr("")) in CoreAddresses || dtype == "core_switch" then "core-block"
        else if FirstKeywordBlock(name, KeywordRules) != "" then FirstKeywordBlock(name, KeywordRules)
        else if dtype in PerimeterTypes then "dmz-block"
        else ""
  {
    KeywordRulesInOrder(SanitizeName(hostname.GetOr("")));
  }

  /** An ISP device gets no block, even at a core address or with a core hostname. */
  lemma IspHasNoBlock(hostname: Option<string>, ip: Option<string>, deviceType: string)
    requires Lower(Strip(deviceType)) == "isp"
    ensures DetermineBlock(hostname, ip, Some(deviceType)) == ""
  {
  }

  /** Any other device at a core address is in the core block, whatever its name. */
  lemma CoreAddressIsCore(hostname: Option<string>, ip: string, deviceType: Option<string>)
    requires Strip(ip) in CoreAddresses
    requires Lower(Strip(deviceType.GetOr(""))) != "isp"
    ensures DetermineBlock(hostname, Some(ip), deviceType) == "core-block"
  {
  }

  // ---------------------------------------------------------------- whole-word matching

  /** `" " + Join(parts, " ") + " "`, built one part at a time. */
  function Padded(parts: seq<string>): string
    decreases |parts|
  {
    if |parts| == 0 then " " else " " + parts[0] + Padded(parts[1..])
  }

  lemma {:induction false} PaddedJoin(parts: seq<string>)
    requires |parts| >= 1
    ensures " " + Join(parts, " ") + " " == Padded(parts)
    decreases |parts|
  {
    if |parts| == 1 {
      assert Padded(parts[1..]) == " ";
    } else {
      PaddedJoin(parts[1..]);
    }
  }

  lemma ContainsInSuffix(u: string, t: string, needle: string)
    requires Contains(t, needle)
    ensures Contains(u + t, needle)
  {
    var k := ContainsWitness(t, needle);
    assert (u + t)[|u| + k..|u| + k + |needle|] == t[k..k + |needle|];
    ContainsAt(u + t, needle, |u| + k);
  }

  /** A match of ` w ` at the very start of ` p ...` means `w` is `p`. */
  lemma HitAtStart(p: string, w: string, rest: string)
    requires ' ' !in p && ' ' !in w
    requires |rest| > 0 && rest[0] == ' '
    requires |w| + 2 <= |p| + 1 + |rest| && (" " + p + rest)[..|w| + 2] == " " + w + " "
    ensures p == w
  {
    // Both `p` and `w` are the first space-separated piece of what follows the leading space.
    var x := (" " + p + rest)[1..];
    assert x == p + [' '] + rest[1..];
    SplitAfterPiece(p, ' ', rest[1..]);
    assert x[..|w| + 1] == w + [' '];
    assert x == w + [' '] + x[|w| + 1..];
    SplitAfterPiece(w, ' ', x[|w| + 1..]);
    assert Split(x, ' ')[0] == p;
    assert Split(x, ' ')[0] == w;
  }

  /** Nothing that starts with a space matches inside a space-free part. */
  lemma NoHitInside(p: string, rest: string, needle: string, k: nat)
    requires ' ' !in p && |needle| > 0 && needle[0] == ' '
    requires 1 <= k <= |p| && k + |needle| <= |p| + 1 + |rest|
    ensures (" " + p + rest)[k..k + |needle|] != needle
  {
    assert (" " + p + rest)[k] == p[k - 1];
    assert p[k - 1] in p;
  }

  /** In a padded list of space-free parts, ` w ` occurs exactly when `w` is one of the parts. */
  lemma {:induction false} PaddedHit(parts: seq<string>, w: string)
    requires w != "" && ' ' !in w
    requires forall k :: 0 <= k < |parts| ==> ' ' !in parts[k]
    ensures Contains(Padded(parts), " " + w + " ") <==> w in parts
    decreases |parts|
  {
    var needle := " " + w + " ";
    if |parts| == 0 {
      if Contains(Padded(parts), needle) {
        var k := ContainsWitness(Padded(parts), needle);
        assert false;
      }
    } else {
      PaddedHit(parts[1..], w);
      if w in parts {
        HitIfMember(parts, w);
      }
      if Contains(Padded(parts), needle) {
        MemberIfHit(parts, w);
      }
    }
  }

  /** One step of `PaddedHit`, one direction: a part equal to `w` gives a hit. */
  lemma HitIfMember(parts: seq<string>, w: string)
    requires |parts| > 0 && w in parts
    requires w in parts[1..] ==> Contains(Padded(parts[1..]), " " + w + " ")
    ensures Contains(Padded(parts), " " + w + " ")
  {
    var needle := " " + w + " ";
    var p := parts[0];
    var rest := Padded(parts[1..]);
    var hay := Padded(parts);
    assert hay == " " + p + rest;
    assert rest[0] == ' ';
    if w == p {
      assert hay[0..|needle|] == needle;
      ContainsAt(hay, needle, 0);
    } else {
      assert w in parts[1..];
      ContainsInSuffix(" " + p, rest, needle);
    }
  }

  /** One step of `PaddedHit`, the other direction: a hit means a part equal to `w`. */
  lemma MemberIfHit(parts: seq<string>, w: string)
    requires w != "" && ' ' !in w
    requires |parts| > 0 && ' ' !in parts[0]
    requires Contains(Padded(parts), " " + w + " ")
    requires Contains(Padded(parts[1..]), " " + w + " ") ==> w in parts[1..]
    ensures w in parts
  {
    var rest := Padded(parts[1..]);
    assert Padded(parts) == " " + parts[0] + rest;
    HitSplit(parts[0], rest, w);
    if parts[0] != w {
      assert w in parts[1..];
    }
  }

  /** A hit in ` p rest` is `p` itself or a hit in `rest`. */
  lemma HitSplit(p: string, rest: string, w: string)
    requires w != "" && ' ' !in w && ' ' !in p
    requires |rest| > 0 && rest[0] == ' '
    requires Contains(" " + p + rest, " " + w + " ")
    ensures p == w || Contains(rest, " " + w + " ")
  {
    var needle := " " + w + " ";
    var hay := " " + p + rest;
    var k := ContainsWitness(hay, needle);
    if k == 0 {
      HitAtStart(p, w, rest);
    } else if k <= |p| {
      NoHitInside(p, rest, needle, k);
      assert false;
    } else {
      var j := k - |p| - 1;
      assert rest[j..j + |needle|] == hay[k..k + |needle|];
      ContainsAt(rest, needle, j);
    }
  }

  /** A single keyword hits a name exactly when it is one of the name's space-separated
      tokens: `CORE` matches "KHI CORE SW1" but not "KHI SCORE SW1" or "KHI CORE1". */
  lemma WordHitIffToken(name: string, w: string)
    requires w != "" && ' ' !in w
    ensures HasWord(name, w) <==> w in Split(name, ' ')
  {
    var parts := Split(name, ' ');
    JoinSplit(name, ' ');
    PaddedJoin(parts);
    SplitPartsAvoidSeparator(name, ' ');
    PaddedHit(parts, w);
  }
}
