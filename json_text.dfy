/**
 * The text pieces the serializer assembles: the three format strings, the
 * leaf encoder `json_encode` applied to a string, and joining.
 */
module JsonText {
  import opened Wrappers

  /** `$indentation`, `$newline` and `$padding`: one indent level, the line break, the space after `:`. */
  datatype Format = Format(indentation: string, newline: string, padding: string)

  /** The pretty layout: two spaces per level, a line feed, one space after `:`. */
  const Pretty: Format := Format("  ", "\n", " ")

  /** The compact layout: no added whitespace at all. */
  const Compact: Format := Format("", "", "")

  /**
   * `json_encode` of a string that is not plain printable ASCII: its escaped
   * literal, or None where `json_encode` returns false (malformed UTF-8).
   * PHP's escaping rules are outside the model and enter as this parameter.
   */
  type Escaper = string -> Option<string>

  /** `str_repeat($s, $n)`. */
  function Repeat(s: string, n: nat): (r: string)
    ensures |r| == |s| * n
    ensures s == "" ==> r == ""
  {
    if n == 0 then "" else s + Repeat(s, n - 1)
  }

  /** `$this->newline . str_repeat($this->indentation, $level)`: the break before a line at that level. */
  function Ws(fmt: Format, level: nat): (r: string)
    ensures fmt.newline == "" && fmt.indentation == "" ==> r == ""
  {
    fmt.newline + Repeat(fmt.indentation, level)
  }

  /** A character `json_encode` writes unchanged: printable ASCII other than `"`, `\` and `/`. */
  predicate PlainChar(c: char)
  {
    ' ' <= c <= '~' && c != '"' && c != '\\' && c != '/'
  }

  predicate Plain(s: string)
  {
    forall i :: 0 <= i < |s| ==> PlainChar(s[i])
  }

  /** `json_encode($s)` for a string: plain text is quoted as it stands, the rest is escaped. */
  function JsonString(escape: Escaper, s: string): (r: Option<string>)
    ensures Plain(s) ==> r == Some("\"" + s + "\"")
    ensures !Plain(s) ==> r == escape(s)
  {
    if Plain(s) then Some("\"" + s + "\"") else escape(s)
  }

  /** An unchecked `json_encode($s)` inside a concatenation: false is written as "". */
  function EncodedOrEmpty(escape: Escaper, s: string): (r: string)
    ensures JsonString(escape, s).Some? ==> r == JsonString(escape, s).value
    ensures JsonString(escape, s).None? ==> r == ""
  {
    match JsonString(escape, s)
    case Some(t) => t
    case None => ""
  }

  /** The strings of `parts` with `sep` between neighbours and nowhere else. */
  function Join(sep: string, parts: seq<string>): string
  {
    if |parts| == 0 then ""
    else if |parts| == 1 then parts[0]
    else parts[0] + sep + Join(sep, parts[1..])
  }

  function Concat(parts: seq<string>): string
  {
    if parts == [] then "" else parts[0] + Concat(parts[1..])
  }

  /** n parts are separated by exactly n - 1 separators. */
  lemma {:induction false} JoinLength(sep: string, parts: seq<string>)
    requires |parts| > 0
    ensures |Join(sep, parts)| == |Concat(parts)| + (|parts| - 1) * |sep|
  {
    if |parts| > 1 {
      JoinLength(sep, parts[1..]);
    }
  }

  /** Joining is concatenating each part with the separator in front of all parts but the first. */
  lemma {:induction false} JoinIsConcat(sep: string, parts: seq<string>, lead: seq<string>)
    requires |lead| == |parts|
    requires forall i :: 0 <= i < |parts| ==> lead[i] == (if i == 0 then "" else sep) + parts[i]
    ensures Join(sep, parts) == Concat(lead)
  {
    if |parts| == 1 {
      assert lead[0] == parts[0];
    } else if |parts| > 1 {
      var rest := seq(|parts| - 1, i requires 0 <= i < |parts| - 1 => (if i == 0 then "" else sep) + parts[i + 1]);
      JoinIsConcat(sep, parts[1..], rest);
      ConcatSepPrefix(sep, rest, lead[1..]);
    }
  }

  lemma {:induction false} ConcatSepPrefix(sep: string, rest: seq<string>, lead: seq<string>)
    requires |rest| == |lead| && |rest| > 0
    requires lead[0] == sep + rest[0]
    requires forall i :: 0 < i < |rest| ==> lead[i] == rest[i]
    ensures Concat(lead) == sep + Concat(rest)
  {
    assert lead[1..] == rest[1..];
  }
}
