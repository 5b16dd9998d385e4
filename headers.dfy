/** Spreadsheet header handling: `normalize_key`, the `HEADER_TO_FIELD` table and
    `extract_headered_record` of `TopologyUtilities`. */
module Headers {
  import opened Wrappers
  import opened Text
  import opened Records

  // ---------------------------------------------------------------- normalize_key

  /** The characters `normalize_key` keeps in its first step: letters, digits, space, underscore. */
  predicate IsKept(c: char) {
    IsAlnum(c) || c == ' ' || c == '_'
  }

  /** The characters a normalised key is made of. */
  predicate IsKeyChar(c: char) {
    IsLower(c) || IsDigit(c) || c == '_'
  }

  /** Step 1: every character that is not kept becomes a space. */
  function BlankOut(s: string): (r: string)
    ensures |r| == |s|
  {
    seq(|s|, i requires 0 <= i < |s| => if IsKept(s[i]) then s[i] else ' ')
  }

  /** The non-empty strings of `parts`, in order. */
  function NonEmptyPieces(parts: seq<string>): (r: seq<string>)
    ensures forall k :: 0 <= k < |r| ==> r[k] != "" && r[k] in parts
    decreases |parts|
  {
    if |parts| == 0 then []
    else (if parts[0] == "" then [] else [parts[0]]) + NonEmptyPieces(parts[1..])
  }

  /** `s.split()` for a string whose only white space character is the space: the maximal
      runs of non-space characters. */
  function Words(s: string): seq<string> {
    NonEmptyPieces(Split(s, ' '))
  }

  /** `s.replace(' ', '_')` */
  function SpacesToUnderscores(s: string): (r: string)
    ensures |r| == |s|
  {
    seq(|s|, i requires 0 <= i < |s| => if s[i] == ' ' then '_' else s[i])
  }

  /** `normalize_key`: blank out punctuation, collapse runs of spaces, lower-case, and turn the
      remaining single spaces into underscores. */
  function NormalizeKey(key: string): string {
    SpacesToUnderscores(Lower(Join(Words(Strip(BlankOut(key))), " ")))
  }

  /** A normalised key is lower-case and made only of ASCII letters, digits and underscores. */
  lemma NormalizeKeyCharset(key: string)
    ensures AllChars(NormalizeKey(key), IsKeyChar)
  {
    var blanked := BlankOut(key);
    assert AllChars(blanked, IsKept);
    StripChars(blanked, IsKept);
    var stripped := Strip(blanked);
    WordsChars(stripped);
    var words := Words(stripped);
    JoinChars(words, " ", IsKept);
    LoweredKeyChars(Join(words, " "));
  }

  /** The words of a string of kept characters are made of letters, digits and underscores. */
  lemma WordsChars(s: string)
    requires AllChars(s, IsKept)
    ensures forall k :: 0 <= k < |Words(s)| ==> AllChars(Words(s)[k], IsKept)
  {
    var parts := Split(s, ' ');
    SplitChars(s, ' ', IsKept);
    var words := Words(s);
    forall k | 0 <= k < |words|
      ensures AllChars(words[k], IsKept)
    {
      var j :| 0 <= j < |parts| && parts[j] == words[k];
    }
  }

  /** Lower-casing, then turning spaces into underscores, leaves only key characters. */
  lemma LoweredKeyChars(s: string)
    requires AllChars(s, IsKept)
    ensures AllChars(SpacesToUnderscores(Lower(s)), IsKeyChar)
  {
    var lowered := Lower(s);
    assert forall i :: 0 <= i < |lowered| ==> IsKept(s[i]);
  }

  /** Normalising a normalised key changes nothing. */
  lemma NormalizeKeyIdempotent(key: string)
    ensures NormalizeKey(NormalizeKey(key)) == NormalizeKey(key)
  {
    var r := NormalizeKey(key);
    NormalizeKeyCharset(key);
    assert AllChars(r, IsKeyChar);
    assert BlankOut(r) == r;
    assert NoSpace(r);
    StripOfNoSpace(r);
    assert ' ' !in r;
    SplitWithoutSeparator(r, ' ');
    var words := Words(r);
    assert NonEmptyPieces([r][1..]) == [];
    if r == "" {
      assert words == [];
    } else {
      assert words == [r];
    }
    assert Join(words, " ") == r;
    LowerOfLowered(r);
    assert SpacesToUnderscores(r) == r;
  }

  // ---------------------------------------------------------------- HEADER_TO_FIELD

  /** `HEADER_TO_FIELD.get(normalized)`: the record field a normalised header spelling is read
      into, if any. */
  function HeaderField(normalized: string): (field: Option<string>)
    ensures field.Some? ==> field.value in RecordDefaults
  {
    if normalized in {"device_a_ip", "devicea_ip", "device_a_address", "devicea_address", "ip_a", "ip_device_a"}
      then Some("device_a_ip")
    else if normalized in {"device_a_hostname", "devicea_hostname", "device_a_host_name", "devicea_host_name", "host_a", "hostname_a", "device_a_name", "name_a", "device_a_host", "host_name_a"}
      then Some("device_a_hostname")
    else if normalized in {"device_a_interface", "devicea_interface", "intf_a", "interface_a"}
      then Some("device_a_interface")
    else if normalized in {"device_a_type", "devicea_type", "type_a"}
      then Some("device_a_type")
    else if normalized in {"device_a_vendor", "devicea_vendor", "vendor_a"}
      then Some("device_a_vendor")
    else if normalized in {"device_a_block", "devicea_block", "block_a"}
      then Some("device_a_block")
    else if normalized in {"device_b_ip", "deviceb_ip", "device_b_address", "deviceb_address", "ip_b", "ip_device_b"}
      then Some("device_b_ip")
    else if normalized in {"device_b_hostname", "deviceb_hostname", "device_b_host_name", "deviceb_host_name", "host_b", "hostname_b", "device_b_name", "name_b", "device_b_host", "host_name_b"}
      then Some("device_b_hostname")
    else if normalized in {"device_b_interface", "deviceb_interface", "intf_b", "interface_b"}
      then Some("device_b_interface")
    else if normalized in {"device_b_type", "deviceb_type", "type_b"}
      then Some("device_b_type")
    else if normalized in {"device_b_vendor", "deviceb_vendor", "vendor_b"}
      then Some("device_b_vendor")
    else if normalized in {"device_b_block", "deviceb_block", "block_b"}
      then Some("device_b_block")
    else if normalized in {"comments", "remark", "remarks", "description"}
      then Some("comments")
    else None
  }

  /** The record `extract_headered_record` starts from: every field, with its default. */
  const RecordDefaults: Dict := map[
    "device_a_ip" := "",
    "device_a_hostname" := "",
    "device_a_interface" := "",
    "device_a_type" := "unknown",
    "device_a_vendor" := "unknown",
    "device_a_block" := "",
    "device_b_ip" := "",
    "device_b_hostname" := "",
    "device_b_interface" := "",
    "device_b_type" := "unknown",
    "device_b_vendor" := "unknown",
    "device_b_block" := "",
    "comments" := ""
  ]

  /** The columns every extracted record carries. */
  lemma DefaultColumns()
    ensures "device_a_ip" in RecordDefaults && "device_a_hostname" in RecordDefaults && "device_a_interface" in RecordDefaults
    ensures "device_a_type" in RecordDefaults && "device_a_vendor" in RecordDefaults && "device_a_block" in RecordDefaults
    ensures "device_b_ip" in RecordDefaults && "device_b_hostname" in RecordDefaults && "device_b_interface" in RecordDefaults
    ensures "device_b_type" in RecordDefaults && "device_b_vendor" in RecordDefaults && "device_b_block" in RecordDefaults
    ensures "comments" in RecordDefaults
  {
  }

  /** The record field a spreadsheet header is read into, if any. */
  function HeaderTarget(header: string): Option<string> {
    HeaderField(NormalizeKey(header))
  }

  // ---------------------------------------------------------------- extract_headered_record

  /** One spreadsheet row in column order: header and cell (`None` for an empty cell). */
  type RawRow = seq<(string, Option<string>)>

  /** The value `field` holds after the header loop: the cell of the last column whose header
      is read into `field` (an empty cell giving ""), or the default when there is none. */
  function HeaderValue(row: RawRow, field: string): string
    requires field in RecordDefaults
    decreases |row|
  {
    if |row| == 0 then RecordDefaults[field]
    else
      var (header, cell) := row[|row| - 1];
      if HeaderTarget(header) == Some(field) then cell.GetOr("")
      else HeaderValue(row[..|row| - 1], field)
  }

  predicate IsTypeField(field: string) {
    field == "device_a_type" || field == "device_b_type"
  }

  /** The value `field` holds in the extracted record: the header value, lower-cased for the
      two device type fields. */
  function ExtractedValue(row: RawRow, field: string): string
    requires field in RecordDefaults
  {
    if IsTypeField(field) then Lower(HeaderValue(row, field)) else HeaderValue(row, field)
  }

  /** `extract_headered_record` */
  method ExtractHeaderedRecord(row: RawRow) returns (record: Dict)
    ensures record.Keys == RecordDefaults.Keys
    ensures forall f :: f in record ==> record[f] == ExtractedValue(row, f)
  {
    record := RecordDefaults;
    for i := 0 to |row|
      invariant record.Keys == RecordDefaults.Keys
      invariant forall f :: f in record ==> record[f] == HeaderValue(row[..i], f)
    {
      var (header, cell) := row[i];
      var target := HeaderField(NormalizeKey(header));
      if target.Some? {
        record := record[target.value := cell.GetOr("")];
      }
      assert row[..i + 1][..i] == row[..i];
    }
    assert row[..|row|] == row;
    if record["device_a_type"] != "" {
      record := record["device_a_type" := Lower(record["device_a_type"])];
    }
    if record["device_b_type"] != "" {
      record := record["device_b_type" := Lower(record["device_b_type"])];
    }
  }

  /** A field that no column header is read into keeps its default. */
  lemma {:induction false} UnmatchedFieldKeepsDefault(row: RawRow, field: string)
    requires field in RecordDefaults
    requires forall i :: 0 <= i < |row| ==> HeaderTarget(row[i].0) != Some(field)
    ensures HeaderValue(row, field) == RecordDefaults[field]
    decreases |row|
  {
    if |row| > 0 {
      UnmatchedFieldKeepsDefault(row[..|row| - 1], field);
    }
  }

  /** When several columns are read into the same field, the last one wins; an empty cell
      gives "". */
  lemma {:induction false} LastMatchingColumnWins(row: RawRow, field: string, i: nat)
    requires field in RecordDefaults
    requires i < |row| && HeaderTarget(row[i].0) == Some(field)
    requires forall j :: i < j < |row| ==> HeaderTarget(row[j].0) != Some(field)
    ensures HeaderValue(row, field) == row[i].1.GetOr("")
    decreases |row|
  {
    if i < |row| - 1 {
      LastMatchingColumnWins(row[..|row| - 1], field, i);
    }
  }

  /** Both type fields of an extracted record are lower-case. */
  lemma ExtractedTypesLowered(row: RawRow, field: string)
    requires IsTypeField(field)
    ensures IsLowered(ExtractedValue(row, field))
  {
    LowerIsLowered(HeaderValue(row, field));
  }
}
