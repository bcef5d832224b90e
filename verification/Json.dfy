/** JSON documents as trees, read the way the Jackson node accessors read them. */
module Json {
  import opened Wrappers

  type Long = n: int | -0x8000_0000_0000_0000 <= n < 0x8000_0000_0000_0000
  type Int32 = n: int | -0x8000_0000 <= n < 0x8000_0000

  // An object lists its field names in order and maps each to its value.
  datatype Json =
    | JNull
    | JBool(b: bool)
    | JNumber(n: int)
    | JText(s: string)
    | JArray(elements: seq<Json>)
    | JObject(names: seq<string>, fields: map<string, Json>)

  // The field of an object; null for an absent field and for any other node.
  function Get(j: Json, name: string): Option<Json> {
    if j.JObject? && name in j.fields then Some(j.fields[name]) else None
  }

  function Digits(n: nat): string {
    (if n < 10 then [] else Digits(n / 10)) + ["0123456789"[n % 10]]
  }

  function AsText(j: Json): string {
    match j
    case JNull => "null"
    case JBool(b) => if b then "true" else "false"
    case JNumber(n) => if n < 0 then "-" + Digits(-n) else Digits(n)
    case JText(s) => s
    case JArray(_) => ""
    case JObject(_, _) => ""
  }

  function Trim(s: string): string {
    if s != [] && s[0] <= ' ' then Trim(s[1..])
    else if s != [] && s[|s| - 1] <= ' ' then Trim(s[..|s| - 1])
    else s
  }

  function AsBoolean(j: Json): bool {
    match j
    case JBool(b) => b
    case JNumber(n) => n != 0
    case JText(s) => Trim(s) == "true"
    case _ => false
  }

  function ToLong(n: int): Long {
    (n + 0x8000_0000_0000_0000) % 0x1_0000_0000_0000_0000 - 0x8000_0000_0000_0000
  }

  function ToInt(n: Long): Int32 {
    (n + 0x8000_0000) % 0x1_0000_0000 - 0x8000_0000
  }

  // How a text is read as a number is left to the library.
  function AsLong(j: Json, longOf: string -> Long): Long {
    match j
    case JBool(b) => if b then 1 else 0
    case JNumber(n) => ToLong(n)
    case JText(s) => longOf(s)
    case _ => 0
  }

  // The nodes that iterating over a node gives.
  function Elements(j: Json): seq<Json> {
    match j
    case JArray(elements) => elements
    case JObject(names, fields) => FieldValues(names, fields)
    case _ => []
  }

  function FieldValues(names: seq<string>, fields: map<string, Json>): seq<Json> {
    if names == [] then []
    else (if names[0] in fields then [fields[names[0]]] else []) + FieldValues(names[1..], fields)
  }

  function Texts(nodes: seq<Json>): (r: seq<string>)
    ensures |r| == |nodes|
  {
    seq(|nodes|, i requires 0 <= i < |nodes| => AsText(nodes[i]))
  }

  function TextArray(texts: seq<string>): Json {
    JArray(seq(|texts|, i requires 0 <= i < |texts| => JText(texts[i])))
  }

  // A list of texts survives being printed as an array and read back.
  lemma TextArrayRoundTrip(texts: seq<string>)
    ensures Texts(Elements(TextArray(texts))) == texts
  {
  }

  // ---------- How nodes of each kind are read ----------

  ghost predicate Blank(s: string) {
    forall i :: 0 <= i < |s| ==> s[i] <= ' '
  }

  lemma {:induction false} TrimTakesBlankEnds(s: string) returns (front: string, back: string)
    ensures s == front + Trim(s) + back && Blank(front) && Blank(back)
  {
    front, back := "", "";
    if s != "" && s[0] <= ' ' {
      var rest := s[1..];
      front, back := TrimTakesBlankEnds(rest);
      assert s == [s[0]] + rest && Trim(s) == Trim(rest);
      front := [s[0]] + front;
    } else if s != "" && s[|s| - 1] <= ' ' {
      var rest := s[..|s| - 1];
      front, back := TrimTakesBlankEnds(rest);
      assert s == rest + [s[|s| - 1]] && Trim(s) == Trim(rest);
      back := back + [s[|s| - 1]];
    } else {
      assert Trim(s) == s;
    }
  }

  // Booleans, numbers but zero, and the text "true" between blanks read as true.
  lemma ReadsTrueIff(j: Json)
    ensures AsBoolean(j) <==>
            || j == JBool(true)
            || (j.JNumber? && j.n != 0)
            || (j.JText? && exists front, back :: Blank(front) && Blank(back) && j.s == front + "true" + back)
  {
    if j.JText? {
      if AsBoolean(j) {
        var front, back := TrimTakesBlankEnds(j.s);
      }
      if front, back :| Blank(front) && Blank(back) && j.s == front + "true" + back {
        TrimOfPadded(front, "true", back);
      }
    }
  }

  lemma {:induction false} TrimOfPadded(front: string, s: string, back: string)
    requires Blank(front) && Blank(back) && s != "" && s[0] > ' ' && s[|s| - 1] > ' '
    ensures Trim(front + s + back) == s
    decreases |front| + |back|
  {
    var all := front + s + back;
    if front != "" {
      assert all[0] == front[0] && all[1..] == front[1..] + s + back;
      TrimOfPadded(front[1..], s, back);
    } else if back != "" {
      assert all[0] == s[0] && all[|all| - 1] == back[|back| - 1];
      assert all[..|all| - 1] == front + s + back[..|back| - 1];
      TrimOfPadded(front, s, back[..|back| - 1]);
    } else {
      assert all == s;
    }
  }

  function DigitOf(c: char): nat {
    match c
    case '1' => 1
    case '2' => 2
    case '3' => 3
    case '4' => 4
    case '5' => 5
    case '6' => 6
    case '7' => 7
    case '8' => 8
    case '9' => 9
    case _ => 0
  }

  function DecimalOf(s: string): nat {
    if s == "" then 0 else 10 * DecimalOf(s[..|s| - 1]) + DigitOf(s[|s| - 1])
  }

  lemma DigitReads(d: nat)
    requires d < 10
    ensures DigitOf("0123456789"[d]) == d && (d > 0 ==> "0123456789"[d] != '0')
  {
  }

  // The digits of a number are its decimal text, without leading zeros.
  lemma {:induction false} DigitsDenote(n: nat)
    ensures Digits(n) != "" && DecimalOf(Digits(n)) == n
    ensures n > 0 ==> Digits(n)[0] != '0'
  {
    DigitReads(n % 10);
    if n >= 10 {
      DigitsDenote(n / 10);
      assert Digits(n)[..|Digits(n)| - 1] == Digits(n / 10);
    } else {
      assert Digits(n)[..0] == "";
    }
  }

  lemma NumberReads(j: Json)
    requires j.JNumber?
    ensures j.n >= 0 ==> AsText(j) == Digits(j.n)
    ensures j.n < 0 ==> AsText(j) == "-" + Digits(-j.n)
  {
  }

  // The other nodes as texts and numbers.
  lemma NodesRead(j: Json, longOf: string -> Long)
    ensures j == JNull ==> AsText(j) == "null" && AsLong(j, longOf) == 0
    ensures j == JBool(true) ==> AsText(j) == "true" && AsLong(j, longOf) == 1
    ensures j == JBool(false) ==> AsText(j) == "false" && AsLong(j, longOf) == 0
    ensures j.JNumber? && -0x8000_0000_0000_0000 <= j.n < 0x8000_0000_0000_0000 ==> AsLong(j, longOf) == j.n
  {
  }
}
