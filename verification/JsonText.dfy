/**
 * The JSON the size results measure: the response `agentConfigToResp` is written as, and the state
 * file `MarshalIndent` gives, as text. The lengths used elsewhere are the lengths of these texts.
 */
module JsonText {
  import opened Base
  import opened RemoteConfig
  import opened StateStore
  import opened ServerConfig
  import opened StateSize

  /** What the encoder writes between the quotes of a string. */
  type Escape = string -> string

  function Lengths(esc: Escape): EscapedLength { (s: string) => |esc(s)| }

  function Decimal(n: int): string
    decreases if n < 0 then 1 - n else n
  {
    if n < 0 then "-" + Decimal(-n) else if n < 10 then ["0123456789"[n]] else Decimal(n / 10) + ["0123456789"[n % 10]]
  }

  lemma {:induction false} DecimalLength(n: int)
    ensures |Decimal(n)| == Digits(n)
    decreases if n < 0 then 1 - n else n
  {
    if n < 0 { DecimalLength(-n); } else if n >= 10 { DecimalLength(n / 10); }
  }

  function Quoted(s: string, esc: Escape): string { "\"" + esc(s) + "\"" }

  /** The elements of a list, with `sep` between them. */
  function Items(xs: seq<string>, sep: string, esc: Escape): string {
    if xs == [] then ""
    else if |xs| == 1 then Quoted(xs[0], esc)
    else Quoted(xs[0], esc) + sep + Items(xs[1..], sep, esc)
  }

  function List(xs: seq<string>, esc: Escape): string { "[" + Items(xs, ",", esc) + "]" }

  function IndentedText(xs: seq<string>, esc: Escape): string {
    if xs == [] then "[]" else "[\n      " + Items(xs, ",\n      ", esc) + "\n    ]"
  }

  lemma {:induction false} ItemsLength(xs: seq<string>, sep: string, esc: Escape)
    requires xs != [] && |sep| >= 1
    ensures |Items(xs, sep, esc)| + 2 + |sep| == ListBytes(xs, Lengths(esc)) + Times(|xs|, |sep| - 1) + 1
  {
    if |xs| > 1 { ItemsLength(xs[1..], sep, esc); } else { assert Times(1, |sep| - 1) == |sep| - 1; }
  }

  lemma ListLength(xs: seq<string>, esc: Escape)
    ensures |List(xs, esc)| == ListBytes(xs, Lengths(esc))
  {
    if xs != [] {
      ItemsLength(xs, ",", esc);
      TimesIsProduct(|xs|, 0);
    }
  }

  lemma IndentedLength(xs: seq<string>, esc: Escape)
    ensures |IndentedText(xs, esc)| == IndentedList(xs, Lengths(esc))
  {
    if xs != [] {
      ItemsLength(xs, ",\n      ", esc);
      TimesIsProduct(|xs|, 7);
    }
  }

  function ResponseText(c: Config, agentID: string, updatedAt: string, sha: Digest, esc: Escape): string {
    "{\"agent_id\":" + Quoted(agentID, esc) + ",\"scan_interval_seconds\":" + Decimal(c.interval)
    + ",\"model_scan_paths\":" + List(c.paths, esc) + ",\"max_report_size_bytes\":" + Decimal(c.maxReport)
    + ",\"enabled_scanners\":" + List(c.scanners, esc) + ",\"updated_at\":" + Quoted(updatedAt, esc)
    + ",\"model_file_size_mb\":" + Decimal(c.modelSizeMB) + ",\"config_version\":" + Quoted(Version(c, sha), esc)
    + ",\"path_warnings\":" + List(WarningNames(c.paths), esc) + "}\n"
  }

  /** The length the response is held to is the length of its text. */
  lemma ResponseTextLength(c: Config, agentID: string, updatedAt: string, sha: Digest, esc: Escape)
    ensures |ResponseText(c, agentID, updatedAt, sha, esc)| == ResponseBytes(c, agentID, updatedAt, sha, Lengths(esc))
  {
    DecimalLength(c.interval);
    DecimalLength(c.maxReport);
    DecimalLength(c.modelSizeMB);
    ListLength(c.paths, esc);
    ListLength(c.scanners, esc);
    ListLength(WarningNames(c.paths), esc);
  }

  /** `stamp` is the timestamp with its quotes. */
  function HeadText(st: StateFile, esc: Escape, stamp: int -> string): string {
    "{\n  \"format\": " + Decimal(st.format) + ",\n  \"agent_id\": " + Quoted(st.agentID, esc)
    + ",\n  \"collector_url_sha256\": " + Quoted(st.urlHash, esc)
    + ",\n  \"config_version\": " + Quoted(st.version, esc) + ",\n  \"fetched_at\": " + stamp(st.fetchedAt)
  }

  function ConfigText(c: Config, esc: Escape): string {
    ",\n  \"config\": {\n    \"scan_interval_seconds\": " + Decimal(c.interval)
    + ",\n    \"enabled_scanners\": " + IndentedText(c.scanners, esc)
    + ",\n    \"model_scan_paths\": " + IndentedText(c.paths, esc)
    + ",\n    \"model_file_size_mb\": " + Decimal(c.modelSizeMB)
    + ",\n    \"max_report_size_bytes\": " + Decimal(c.maxReport) + "\n  }\n}"
  }

  function FileText(st: StateFile, esc: Escape, stamp: int -> string): string {
    HeadText(st, esc, stamp) + ConfigText(st.config, esc)
  }

  /** And the length of the state file is the length of its text. */
  lemma FileTextLength(st: StateFile, esc: Escape, stamp: int -> string)
    ensures |FileText(st, esc, stamp)| == FileBytes(st, Lengths(esc), (t: int) => |stamp(t)|)
  {
    DecimalLength(st.format);
    DecimalLength(st.config.interval);
    DecimalLength(st.config.modelSizeMB);
    DecimalLength(st.config.maxReport);
    IndentedLength(st.config.scanners, esc);
    IndentedLength(st.config.paths, esc);
  }
}
