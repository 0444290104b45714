/** The decoded body of an API answer: the values `response.json()` can produce
    (floating-point numbers excepted, and integers of any length, where Python's
    decoder refuses literals of more than 4300 digits), and the two Python
    operations the bot applies to them: key lookup in a dict and `str()` inside
    an f-string. */
module Json {
  import opened Wrappers

  /** A JSON value as Python holds it after decoding. An object is a Python
      dict: its entries in insertion order. A `JObj` whose keys repeat stands
      for no Python dict (the decoder keeps one entry per key); lookup takes
      the first entry with the key. */
  datatype Json =
    | JNull
    | JBool(b: bool)
    | JInt(i: int)
    | JStr(s: string)
    | JList(items: seq<Json>)
    | JObj(entries: seq<(string, Json)>)

  /** `d.get(key)` on a dict's entries: the value stored under `key`, or None. */
  function Get(entries: seq<(string, Json)>, key: string): (r: Option<Json>)
    ensures r.None? <==> forall i :: 0 <= i < |entries| ==> entries[i].0 != key
    ensures r.Some? ==> exists i :: 0 <= i < |entries| && entries[i] == (key, r.value)
                                    && forall j :: 0 <= j < i ==> entries[j].0 != key
  {
    if entries == [] then None
    else if entries[0].0 == key then Some(entries[0].1)
    else
      var r := Get(entries[1..], key);
      assert r.Some? ==> exists i :: 1 <= i < |entries| && entries[i] == (key, r.value)
                                     && forall j :: 1 <= j < i ==> entries[j].0 != key by {
        if r.Some? {
          var i :| 0 <= i < |entries| - 1 && entries[1..][i] == (key, r.value)
                   && forall j :: 0 <= j < i ==> entries[1..][j].0 != key;
          assert forall j :: 1 <= j < i + 1 ==> entries[j] == entries[1..][j - 1];
        }
      }
      r
  }

  /** The entries of a real Python dict: no key appears twice. */
  predicate DistinctKeys(entries: seq<(string, Json)>) {
    forall i, j :: 0 <= i < j < |entries| ==> entries[i].0 != entries[j].0
  }

  /** In a dict with distinct keys, lookup finds the one entry stored under the key. */
  lemma GetDistinct(entries: seq<(string, Json)>, key: string, i: nat)
    requires DistinctKeys(entries)
    requires i < |entries| && entries[i].0 == key
    ensures Get(entries, key) == Some(entries[i].1)
  {
  }

  /** True when `j` is a dict with an entry for `key` (`key in d`). */
  predicate HasKey(j: Json, key: string) {
    j.JObj? && Get(j.entries, key).Some?
  }

  // ---- str() of a decoded value, as an f-string renders it ----

  function DigitChar(d: nat): (c: char)
    requires d < 10
    ensures c as int - '0' as int == d
  {
    "0123456789"[d]
  }

  /** The decimal digits of a natural number, most significant first. */
  function Digits(n: nat): (r: string)
    ensures |r| > 0 && forall k :: 0 <= k < |r| ==> '0' <= r[k] <= '9'
    decreases n
  {
    if n < 10 then [DigitChar(n)] else Digits(n / 10) + [DigitChar(n % 10)]
  }

  /** The number a string of decimal digits denotes, the inverse of Digits. */
  function DigitsValue(s: string): int
    decreases |s|
  {
    if s == [] then 0 else 10 * DigitsValue(s[..|s| - 1]) + (s[|s| - 1] as int - '0' as int)
  }

  /** Reading back the digits Python prints for a natural number gives that number. */
  lemma {:induction false} DigitsRoundTrip(n: nat)
    ensures |Digits(n)| > 0
    ensures DigitsValue(Digits(n)) == n
    decreases n
  {
    if n >= 10 {
      DigitsRoundTrip(n / 10);
      var s := Digits(n);
      assert s[..|s| - 1] == Digits(n / 10);
    }
  }

  /** `str(i)` for a Python int. */
  function IntStr(i: int): string {
    if i < 0 then "-" + Digits(-i) else Digits(i)
  }

  /** `int(s)` for an optional minus sign followed by decimal digits. */
  function IntValue(s: string): int {
    if |s| > 0 && s[0] == '-' then -DigitsValue(s[1..]) else DigitsValue(s)
  }

  /** `int(str(i)) == i`: the rendering of an int name reads back as that int. */
  lemma IntStrRoundTrip(i: int)
    ensures IntValue(IntStr(i)) == i
  {
    if i < 0 {
      DigitsRoundTrip(-i);
      assert IntStr(i)[1..] == Digits(-i);
    } else {
      DigitsRoundTrip(i);
    }
  }

  function HexDigit(d: nat): char
    requires d < 16
  {
    "0123456789abcdef"[d]
  }

  /** One character of the body of `repr(s)` when `q` is the quote chosen. */
  function EscapeChar(c: char, q: char): string {
    if c == q || c == '\\' then ['\\', c]
    else if c == '\t' then "\\t"
    else if c == '\n' then "\\n"
    else if c == '\r' then "\\r"
    else if c as int < 32 || c as int == 127 then "\\x" + [HexDigit(c as int / 16), HexDigit(c as int % 16)]
    else [c]
  }

  function EscapeAll(s: string, q: char): string
    decreases |s|
  {
    if s == [] then [] else EscapeChar(s[0], q) + EscapeAll(s[1..], q)
  }

  /** `repr(s)` for a Python str: single quotes unless the text holds a single
      quote and no double quote. */
  function StrRepr(s: string): string {
    var q := if '\'' in s && '"' !in s then '"' else '\'';
    [q] + EscapeAll(s, q) + [q]
  }

  /** A character `repr` leaves as it is inside single quotes. */
  predicate PlainChar(c: char) {
    c != '\'' && c != '\\' && c as int >= 32 && c as int != 127
  }

  /** Escaping text of plain characters changes nothing. */
  lemma {:induction false} EscapeAllPlain(s: string, q: char)
    requires q == '\''
    requires forall k :: 0 <= k < |s| ==> PlainChar(s[k])
    ensures EscapeAll(s, q) == s
    decreases |s|
  {
    if s != [] {
      EscapeAllPlain(s[1..], q);
      assert s == [s[0]] + s[1..];
    }
  }

  /** `repr(s)` of text with no quote, backslash or control character is the
      text between single quotes. */
  lemma StrReprPlain(s: string)
    requires forall k :: 0 <= k < |s| ==> PlainChar(s[k])
    ensures StrRepr(s) == "'" + s + "'"
  {
    EscapeAllPlain(s, '\'');
  }

  /** `repr(j)`: how a value appears inside a list or dict rendering. */
  function Repr(j: Json): (r: string)
    ensures |r| >= 2 || j.JInt?
    ensures j.JStr? ==> r[0] == r[|r| - 1] && (r[0] == '\'' || r[0] == '"')
    ensures j.JList? ==> r[0] == '[' && r[|r| - 1] == ']'
    ensures j.JObj? ==> r[0] == '{' && r[|r| - 1] == '}'
    decreases j, 1
  {
    match j
    case JNull => "None"
    case JBool(b) => if b then "True" else "False"
    case JInt(i) => IntStr(i)
    case JStr(s) => StrRepr(s)
    case JList(items) => "[" + ReprItems(j, items) + "]"
    case JObj(entries) => "{" + ReprEntries(j, entries) + "}"
  }

  /** The reprs of a list's items joined with ", ". */
  function ReprItems(ghost parent: Json, items: seq<Json>): string
    requires forall k :: 0 <= k < |items| ==> items[k] < parent
    decreases parent, 0, |items|
  {
    if items == [] then ""
    else if |items| == 1 then Repr(items[0])
    else Repr(items[0]) + ", " + ReprItems(parent, items[1..])
  }

  /** The `'key': value` reprs of a dict's entries joined with ", ". */
  function ReprEntries(ghost parent: Json, entries: seq<(string, Json)>): string
    requires forall k :: 0 <= k < |entries| ==> entries[k].1 < parent
    decreases parent, 0, |entries|
  {
    if entries == [] then ""
    else
      var first := StrRepr(entries[0].0) + ": " + Repr(entries[0].1);
      if |entries| == 1 then first else first + ", " + ReprEntries(parent, entries[1..])
  }

  /** `str(j)`, what `f"{j}"` inserts: a str as it is, anything else as its repr. */
  function Str(j: Json): (r: string)
    ensures j.JStr? ==> r == j.s
    ensures j.JInt? ==> IntValue(r) == j.i
  {
    if j.JStr? then j.s
    else if j.JInt? then IntStrRoundTrip(j.i); Repr(j)
    else Repr(j)
  }
}
