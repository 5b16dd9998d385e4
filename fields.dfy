/** Field cleaning, device identity and IPv4 syntax (`clean_field_value`, `compute_device_id`
    and `is_ipv4` of `TopologyUtilities`). */
module Fields {
  import opened Wrappers
  import opened Text

  // ---------------------------------------------------------------- clean_field_value

  /** The spellings that a spreadsheet or a client uses for "no value" (compared after
      stripping and lower-casing). */
  const Placeholders: set<string> := {"-", "", "none", "null", "undefined", "n/a", "na"}

  /** `clean_field_value`: `None` and placeholders become "", anything else is stripped. */
  function CleanFieldValue(value: Option<string>): (r: string)
    ensures value.None? ==> r == ""
    ensures value.Some? && Lower(Strip(value.value)) in Placeholders ==> r == ""
    ensures value.Some? && Lower(Strip(value.value)) !in Placeholders ==> r == Strip(value.value) != ""
    ensures Trimmed(r)
  {
    match value
    case None => ""
    case Some(s) =>
      StripIsTrimmed(s);
      var cleaned := Strip(s);
      if Lower(cleaned) in Placeholders then "" else cleaned
  }

  /** Cleaning a cleaned value changes nothing. */
  lemma CleanFieldValueIdempotent(value: Option<string>)
    ensures CleanFieldValue(Some(CleanFieldValue(value))) == CleanFieldValue(value)
  {
    StripOfTrimmed(CleanFieldValue(value));
  }

  /** A cleaned value is either empty or not a placeholder. */
  lemma CleanFieldValueNotPlaceholder(value: Option<string>)
    ensures var r := CleanFieldValue(value); r == "" || Lower(r) !in Placeholders
  {
  }

  // ---------------------------------------------------------------- compute_device_id

  /** `compute_device_id`: the cleaned IP when there is one, otherwise the cleaned hostname. */
  function ComputeDeviceId(ip: Option<string>, hostname: Option<string>): (id: string)
    ensures id == "" <==> CleanFieldValue(ip) == "" && CleanFieldValue(hostname) == ""
    ensures CleanFieldValue(ip) != "" ==> id == CleanFieldValue(ip)
    ensures CleanFieldValue(ip) == "" ==> id == CleanFieldValue(hostname)
  {
    var cleanIp := CleanFieldValue(ip);
    var cleanHostname := CleanFieldValue(hostname);
    if cleanIp != "" then cleanIp else cleanHostname
  }

  /** A device id is already clean: cleaning it again gives it back. */
  lemma DeviceIdIsClean(ip: Option<string>, hostname: Option<string>)
    ensures var id := ComputeDeviceId(ip, hostname); CleanFieldValue(Some(id)) == id
  {
    CleanFieldValueIdempotent(ip);
    CleanFieldValueIdempotent(hostname);
  }

  // ---------------------------------------------------------------- is_ipv4

  /** One dotted part of an IPv4 address: non-empty, ASCII digits only, value at most 255.
      Leading zeros are allowed, as `int` allows them. */
  predicate IsOctet(part: string) {
    |part| > 0 && AllDigits(part) && DecimalValue(part) <= 255
  }

  /** `is_ipv4`: exactly four `.`-separated parts, each an octet. */
  predicate IsIPv4(value: string) {
    var parts := Split(value, '.');
    |parts| == 4 && forall k | 0 <= k < 4 :: IsOctet(parts[k])
  }

  function DottedQuad(p0: string, p1: string, p2: string, p3: string): string {
    p0 + "." + p1 + "." + p2 + "." + p3
  }

  lemma DigitsAvoidDot(p: string)
    requires AllDigits(p)
    ensures '.' !in p
  {
    forall i | 0 <= i < |p|
      ensures p[i] != '.'
    {
      assert IsDigit(p[i]);
    }
  }

  /** Four digit strings joined by dots split back into those four strings. */
  lemma {:induction false} SplitDottedQuad(p0: string, p1: string, p2: string, p3: string)
    requires AllDigits(p0) && AllDigits(p1) && AllDigits(p2) && AllDigits(p3)
    ensures Split(DottedQuad(p0, p1, p2, p3), '.') == [p0, p1, p2, p3]
  {
    DigitsAvoidDot(p0);
    DigitsAvoidDot(p1);
    DigitsAvoidDot(p2);
    DigitsAvoidDot(p3);
    var t2 := p2 + "." + p3;
    var t1 := p1 + "." + t2;
    assert DottedQuad(p0, p1, p2, p3) == p0 + ['.'] + t1;
    SplitAfterPiece(p0, '.', t1);
    assert t1 == p1 + ['.'] + t2;
    SplitAfterPiece(p1, '.', t2);
    assert t2 == p2 + ['.'] + p3;
    SplitAfterPiece(p2, '.', p3);
    SplitWithoutSeparator(p3, '.');
  }

  /** `is_ipv4` holds exactly of the strings made of four octets joined by dots. */
  lemma {:induction false} IsIPv4Iff(value: string)
    ensures IsIPv4(value) <==>
      exists p0, p1, p2, p3 ::
        IsOctet(p0) && IsOctet(p1) && IsOctet(p2) && IsOctet(p3) && value == DottedQuad(p0, p1, p2, p3)
  {
    if IsIPv4(value) {
      var parts := Split(value, '.');
      JoinSplit(value, '.');
      assert Join(parts, ".") == DottedQuad(parts[0], parts[1], parts[2], parts[3]) by {
        var r1 := parts[1..];
        var r2 := r1[1..];
        var r3 := r2[1..];
        assert r3 == [parts[3]];
        assert Join(r2, ".") == parts[2] + "." + parts[3];
        assert Join(r1, ".") == parts[1] + "." + (parts[2] + "." + parts[3]);
        assert Join(parts, ".") == parts[0] + "." + (parts[1] + "." + (parts[2] + "." + parts[3]));
      }
      assert IsOctet(parts[0]) && IsOctet(parts[1]) && IsOctet(parts[2]) && IsOctet(parts[3]);
    }
    if exists p0, p1, p2, p3 ::
        IsOctet(p0) && IsOctet(p1) && IsOctet(p2) && IsOctet(p3) && value == DottedQuad(p0, p1, p2, p3)
    {
      var p0, p1, p2, p3 :|
        IsOctet(p0) && IsOctet(p1) && IsOctet(p2) && IsOctet(p3) && value == DottedQuad(p0, p1, p2, p3);
      SplitDottedQuad(p0, p1, p2, p3);
    }
  }

  lemma DecimalOctet(n: nat)
    requires n <= 255
    ensures IsOctet(Decimal(n))
  {
    DecimalRoundTrip(n);
  }

  /** `str(a) + '.' + str(b) + '.' + str(c) + '.' + str(d)` is accepted whenever every
      number is at most 255. */
  lemma DecimalQuadIsIPv4(a: nat, b: nat, c: nat, d: nat)
    requires a <= 255 && b <= 255 && c <= 255 && d <= 255
    ensures IsIPv4(DottedQuad(Decimal(a), Decimal(b), Decimal(c), Decimal(d)))
  {
    DecimalOctet(a);
    DecimalOctet(b);
    DecimalOctet(c);
    DecimalOctet(d);
    IsIPv4Iff(DottedQuad(Decimal(a), Decimal(b), Decimal(c), Decimal(d)));
  }

  /** A part with a value above 255 makes the address invalid, whatever the other parts. */
  lemma LargeOctetRejected(p0: string, p1: string, p2: string, p3: string)
    requires AllDigits(p0) && AllDigits(p1) && AllDigits(p2) && AllDigits(p3)
    requires DecimalValue(p0) > 255
    ensures !IsIPv4(DottedQuad(p0, p1, p2, p3))
  {
    SplitDottedQuad(p0, p1, p2, p3);
    assert Split(DottedQuad(p0, p1, p2, p3), '.')[0] == p0;
  }

  predicate DigitsAndDots(s: string) {
    forall i :: 0 <= i < |s| ==> IsDigit(s[i]) || s[i] == '.'
  }

  lemma DottedQuadChars(p0: string, p1: string, p2: string, p3: string)
    requires AllDigits(p0) && AllDigits(p1) && AllDigits(p2) && AllDigits(p3)
    ensures DigitsAndDots(DottedQuad(p0, p1, p2, p3))
  {
    var t2 := p2 + "." + p3;
    assert DigitsAndDots(t2);
    var t1 := p1 + "." + t2;
    assert DigitsAndDots(t1);
    assert DottedQuad(p0, p1, p2, p3) == p0 + "." + t1;
  }

  /** An IPv4 address is left unchanged by `clean_field_value`, so it is its own device id. */
  lemma IPv4IsClean(value: string)
    requires IsIPv4(value)
    ensures CleanFieldValue(Some(value)) == value
  {
    IsIPv4Iff(value);
    var p0, p1, p2, p3 :|
      IsOctet(p0) && IsOctet(p1) && IsOctet(p2) && IsOctet(p3) && value == DottedQuad(p0, p1, p2, p3);
    DottedQuadChars(p0, p1, p2, p3);
    StripOfNoSpace(value);
    LowerOfLowered(value);
    assert IsDigit(value[0]);
  }
}
