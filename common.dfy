/** Small value types and text helpers shared by every module of the model.
    Python's truthiness of text ("" and None are both false) is modelled by
    treating the empty string as "unset". */
module Common {

  datatype Option<T> = None | Some(value: T) {
    function GetOr(default: T): T {
      match this
      case Some(v) => v
      case None => default
    }
  }

  /** A value or the message of the exception the source raises instead. */
  datatype Result<T> = Ok(value: T) | Err(msg: string)

  /** Pass, or the message of the exception a validation hook throws. */
  datatype Outcome = Pass | Fail(msg: string)

  /** An optional text is truthy in Python when it is present and non-empty. */
  predicate Truthy(o: Option<string>) {
    o.Some? && o.value != ""
  }

  /** The ASCII characters Python's str.strip() removes: space, the controls
      \t to \r, and the separators \x1c to \x1f. */
  predicate IsSpace(c: char) {
    c == ' ' || '\t' <= c <= '\r' || '\U{1C}' <= c <= '\U{1F}'
  }

  /** str.rstrip(): drop trailing whitespace. */
  function RStrip(s: string): (r: string)
    ensures |r| <= |s| && r == s[..|r|]
    ensures r == [] || !IsSpace(r[|r| - 1])
    ensures forall i :: |r| <= i < |s| ==> IsSpace(s[i])
  {
    if s == [] then []
    else if IsSpace(s[|s| - 1]) then RStrip(s[..|s| - 1])
    else s
  }

  /** Leading whitespace dropped. */
  function LStrip(s: string): (r: string)
    ensures |r| <= |s| && r == s[|s| - |r|..]
    ensures r == [] || !IsSpace(r[0])
    ensures forall i :: 0 <= i < |s| - |r| ==> IsSpace(s[i])
  {
    if s == [] then []
    else if IsSpace(s[0]) then LStrip(s[1..])
    else s
  }

  /** str.strip(). */
  function Strip(s: string): (r: string)
    ensures r == [] || (!IsSpace(r[0]) && !IsSpace(r[|r| - 1]))
  {
    var t := RStrip(s);
    var r := LStrip(t);
    assert r != [] ==> r[|r| - 1] == t[|t| - 1];
    r
  }

  /** sep.join(parts). */
  function Join(parts: seq<string>, sep: string): (r: string)
    ensures parts == [] ==> r == ""
    ensures |parts| == 1 ==> r == parts[0]
  {
    if parts == [] then ""
    else if |parts| == 1 then parts[0]
    else Join(parts[..|parts| - 1], sep) + sep + parts[|parts| - 1]
  }

  /** The Python test `sub in s`. */
  predicate Contains(s: string, sub: string) {
    |sub| <= |s| && (s[..|sub|] == sub || Contains(s[1..], sub))
  }

  /** sub occurs in s starting at index j. */
  predicate OccursAt(s: string, sub: string, j: nat) {
    j + |sub| <= |s| && s[j..j + |sub|] == sub
  }

  /** Index of the first occurrence of sub in s. */
  function FindSub(s: string, sub: string): (r: Option<nat>)
    ensures r.Some? ==> OccursAt(s, sub, r.value)
    ensures r.Some? ==> forall j: nat :: j < r.value ==> !OccursAt(s, sub, j)
    ensures r.None? <==> !Contains(s, sub)
  {
    if |sub| > |s| then None
    else if s[..|sub|] == sub then Some(0)
    else
      match FindSub(s[1..], sub)
      case None => None
      case Some(k) =>
        assert forall j: nat :: 1 <= j ==> (OccursAt(s, sub, j) <==> OccursAt(s[1..], sub, j - 1)) by {
          forall j: nat | 1 <= j ensures OccursAt(s, sub, j) <==> OccursAt(s[1..], sub, j - 1) {
            if j + |sub| <= |s| { SliceOfTail(s, j, |sub|); }
          }
        }
        Some(k + 1)
  }

  /** A slice of the tail is the slice one place further on. */
  lemma SliceOfTail<T>(s: seq<T>, j: nat, n: nat)
    requires 1 <= j && j + n <= |s|
    ensures s[1..][j - 1..j - 1 + n] == s[j..j + n]
  {
  }

  function DigitChar(d: nat): (c: char)
    requires d < 10
    ensures '0' <= c <= '9'
  {
    "0123456789"[d]
  }

  /** str(n) for a natural number. */
  function NatToString(n: nat): (s: string)
    ensures 1 <= |s|
    ensures forall i :: 0 <= i < |s| ==> '0' <= s[i] <= '9'
    ensures n < 10 <==> |s| == 1
  {
    if n < 10 then [DigitChar(n)] else NatToString(n / 10) + [DigitChar(n % 10)]
  }

  /** str(i) for an integer. */
  function IntToString(i: int): (s: string)
    ensures 1 <= |s|
    ensures s[0] == '-' <==> i < 0
  {
    if i < 0 then "-" + NatToString(-i) else NatToString(i)
  }

  /** str(x) for a whole-valued Python float: "90000.0". */
  function FloatText(i: int): (s: string)
    ensures |s| >= 3 && s[|s| - 2..] == ".0"
  {
    IntToString(i) + ".0"
  }

  /** repr() of a str: in single quotes, unless the text holds a single quote
      and no double quote; backslashes and the chosen quote are escaped. */
  function PyRepr(s: string): (r: string)
    ensures |r| >= |s| + 2
    ensures r[0] == r[|r| - 1] && (r[0] == '"' <==> '\'' in s && '"' !in s)
  {
    var q := if '\'' in s && '"' !in s then '"' else '\'';
    [q] + Escaped(s, q) + [q]
  }

  /** `s` with a backslash put before every backslash and every `q`. */
  function Escaped(s: string, q: char): (r: string)
    ensures |r| >= |s|
    ensures (forall i :: 0 <= i < |s| ==> s[i] != '\\' && s[i] != q) ==> r == s
  {
    if s == [] then []
    else (if s[0] == '\\' || s[0] == q then ['\\', s[0]] else [s[0]]) + Escaped(s[1..], q)
  }

  /** A text without quotes or backslashes is shown in single quotes as it is. */
  lemma PlainRepr(s: string)
    requires forall i :: 0 <= i < |s| ==> s[i] != '\'' && s[i] != '"' && s[i] != '\\'
    ensures PyRepr(s) == "'" + s + "'"
  {
  }

  /** A text with a single quote but no double quote or backslash is shown
      in double quotes as it is. */
  lemma DoubleQuotedRepr(s: string)
    requires '\'' in s && '"' !in s && '\\' !in s
    ensures PyRepr(s) == "\"" + s + "\""
  {
  }

  /** No element occurs twice. */
  predicate NoDuplicates<T(==)>(s: seq<T>) {
    forall i, j :: 0 <= i < j < |s| ==> s[i] != s[j]
  }
}
