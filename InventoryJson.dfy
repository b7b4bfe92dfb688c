/** How `all_nodes_ready` reads one line of `show inventory`: the line is
    wrapped in braces, the keys `NAME` and `DESCR` are quoted by plain text
    replacement, and the result is decoded as a JSON object (RFC 8259).
    Only objects whose values are all strings are decoded here. */
module InventoryJson {
  import opened Wrappers
  import opened PyStr

  /** The decoded object: key to string value, a later duplicate key winning. */
  type JsonObject = map<string, string>

  /** `'{' + line + '}'`, then `replace("NAME", '"NAME"')`, then
      `replace("DESCR", '"DESCR"')`. */
  function Quoted(line: string): string {
    Replace(Replace("{" + line + "}", "NAME", "\"NAME\""), "DESCR", "\"DESCR\"")
  }

  /** The four characters JSON allows between tokens. */
  predicate IsJsonSpace(c: char) {
    c == ' ' || c == '\t' || c == '\n' || c == '\r'
  }

  /** The first index at or after `i` that is not JSON whitespace. */
  function SkipWs(s: string, i: nat): (j: nat)
    requires i <= |s|
    ensures i <= j <= |s|
    ensures j == |s| || !IsJsonSpace(s[j])
    ensures forall k :: i <= k < j ==> IsJsonSpace(s[k])
    decreases |s| - i
  {
    if i < |s| && IsJsonSpace(s[i]) then SkipWs(s, i + 1) else i
  }

  function HexDigit(c: char): Option<nat> {
    if '0' <= c <= '9' then Some(c as int - '0' as int)
    else if 'a' <= c <= 'f' then Some(c as int - 'a' as int + 10)
    else if 'A' <= c <= 'F' then Some(c as int - 'A' as int + 10)
    else None
  }

  /** The value of the four hex digits at `s[k..k + 4]`. */
  function Hex4(s: string, k: nat): (r: Option<nat>)
    requires k + 4 <= |s|
    ensures r.Some? ==> r.value < 0x10000
  {
    match (HexDigit(s[k]), HexDigit(s[k + 1]), HexDigit(s[k + 2]), HexDigit(s[k + 3]))
    case (Some(a), Some(b), Some(c), Some(d)) =>
      if a < 16 && b < 16 && c < 16 && d < 16 then Some(((a * 16 + b) * 16 + c) * 16 + d) else None
    case _ => None
  }

  /** The character an escape stands for, where `s[k]` follows the backslash,
      and the index after the escape. A `\u` escape naming a surrogate half
      is refused: it has no character of its own. */
  function Escape(s: string, k: nat): (r: Option<(char, nat)>)
    requires k < |s|
    ensures r.Some? ==> k < r.value.1 <= |s|
  {
    match s[k]
    case '"' => Some(('"', k + 1))
    case '\\' => Some(('\\', k + 1))
    case '/' => Some(('/', k + 1))
    case 'b' => Some(('\U{8}', k + 1))
    case 'f' => Some(('\U{C}', k + 1))
    case 'n' => Some(('\n', k + 1))
    case 'r' => Some(('\r', k + 1))
    case 't' => Some(('\t', k + 1))
    case 'u' =>
      if k + 5 <= |s| then
        match Hex4(s, k + 1)
        case Some(cp) => if 0xD800 <= cp < 0xE000 then None else Some((cp as char, k + 5))
        case None => None
      else None
    case _ => None
  }

  /** The rest of a string literal from `s[j]` on, `acc` holding what is
      decoded so far: its value and the index past the closing quote.
      Control characters must be escaped (strict decoding). */
  function StringBody(s: string, j: nat, acc: string): (r: Option<(string, nat)>)
    requires j <= |s|
    ensures r.Some? ==> j < r.value.1 <= |s|
    decreases |s| - j
  {
    if j == |s| then None
    else if s[j] == '"' then Some((acc, j + 1))
    else if s[j] == '\\' then
      if j + 1 == |s| then None
      else
        match Escape(s, j + 1)
        case Some((c, next)) => StringBody(s, next, acc + [c])
        case None => None
    else if (s[j] as int) < 0x20 then None
    else StringBody(s, j + 1, acc + [s[j]])
  }

  /** A string literal whose opening quote is `s[i]`. */
  function ParseString(s: string, i: nat): (r: Option<(string, nat)>)
    requires i < |s| && s[i] == '"'
    ensures r.Some? ==> i + 1 < r.value.1 <= |s|
  {
    StringBody(s, i + 1, [])
  }

  /** Accepts the document when only whitespace follows index `k`. */
  function Finish(s: string, k: nat, obj: JsonObject): (r: Option<JsonObject>)
    requires k <= |s|
    ensures r.Some? ==> r.value == obj
  {
    if SkipWs(s, k) == |s| then Some(obj) else None
  }

  /** One `"key": value` member whose key starts at `s[j]`: the key, the
      string value and the index after the value. */
  function Member(s: string, j: nat): (r: Option<(string, string, nat)>)
    requires j <= |s|
    ensures r.Some? ==> j < r.value.2 <= |s|
  {
    if j == |s| || s[j] != '"' then None
    else
      match ParseString(s, j)
      case None => None
      case Some((key, k)) =>
        var colon := SkipWs(s, k);
        if colon == |s| || s[colon] != ':' then None
        else
          var v := SkipWs(s, colon + 1);
          if v == |s| || s[v] != '"' then None
          else
            match ParseString(s, v)
            case None => None
            case Some((value, e)) => Some((key, value, e))
  }

  /** The members of an object from the key that starts at `s[j]` on,
      through the closing brace and to the end of the document. */
  function Members(s: string, j: nat, acc: JsonObject): (r: Option<JsonObject>)
    requires j <= |s|
    ensures r.Some? ==> acc.Keys <= r.value.Keys
    decreases |s| - j, 1
  {
    match Member(s, j)
    case None => None
    case Some((key, value, e)) => AfterMember(s, e, acc[key := value])
  }

  /** What may follow a member ending at `e`: a comma and more members, or
      the closing brace and the end of the document. */
  function AfterMember(s: string, e: nat, obj: JsonObject): (r: Option<JsonObject>)
    requires e <= |s|
    ensures r.Some? ==> obj.Keys <= r.value.Keys
    decreases |s| - e, 0
  {
    var next := SkipWs(s, e);
    if next == |s| then None
    else if s[next] == '}' then Finish(s, next + 1, obj)
    else if s[next] == ',' then Members(s, SkipWs(s, next + 1), obj)
    else None
  }

  /** `json.loads(s)` for a document that is one object of string values;
      `None` wherever the decoder raises. */
  function ParseObject(s: string): (r: Option<JsonObject>)
  {
    var i := SkipWs(s, 0);
    if i == |s| || s[i] != '{' then None
    else
      var j := SkipWs(s, i + 1);
      if j < |s| && s[j] == '}' then Finish(s, j + 1, map[])
      else Members(s, j, map[])
  }

  /** The `show inventory` line the device prints for a part. */
  function InventoryLine(name: string, descr: string): string {
    "NAME: \"" + name + "\", DESCR: \"" + descr + "\""
  }

  /** Characters that stand for themselves inside a JSON string. */
  predicate PlainChars(x: string) {
    forall i :: 0 <= i < |x| ==> x[i] != '"' && x[i] != '\\' && (x[i] as int) >= 0x20
  }

  /** Text that sits inside a JSON string unchanged and that the key
      quoting does not touch. */
  predicate Plain(x: string) {
    PlainChars(x) && !Contains(x, "NAME") && !Contains(x, "DESCR")
  }

  /** One `"key": "value"` member. */
  function MemberText(key: string, value: string): (m: string)
    ensures |m| == |key| + |value| + 6
  {
    "\"" + key + "\": \"" + value + "\""
  }

  /** The object text a device line should become once its keys are quoted. */
  function QuotedLine(name: string, descr: string): string {
    "{" + MemberText("NAME", name) + ", " + MemberText("DESCR", descr) + "}"
  }

  // ---- Replacement inside the inventory line ----

  /** Replacing in `x + y` keeps plain text `x` when a quote starts `y`:
      no quote-free pattern can start inside `x`. */
  lemma ReplacePastPlain(x: string, y: string, pat: string, rep: string)
    requires pat != [] && '"' !in pat && !Contains(x, pat) && y != [] && y[0] == '"'
    ensures Replace(x + y, pat, rep) == x + Replace(y, pat, rep)
  {
    ContainsIff(x, pat);
    forall i | 0 <= i < |x| ensures !OccursAt(x + y, pat, i) {
      if i + |pat| <= |x| {
        assert (x + y)[i..i + |pat|] == x[i..i + |pat|];
        assert !OccursAt(x, pat, i);
      } else if i + |pat| <= |x + y| {
        var w := (x + y)[i..i + |pat|];
        assert w[|x| - i] == '"';
        assert pat[|x| - i] in pat;
      }
    }
    ReplaceSkip(x + y, |x|, pat, rep);
    assert (x + y)[..|x|] == x && (x + y)[|x|..] == y;
  }

  /** Replacing in `x + y` keeps `x` when none of its characters can start
      the pattern. */
  lemma ReplacePastLiteral(x: string, y: string, pat: string, rep: string)
    requires pat != [] && forall i :: 0 <= i < |x| ==> x[i] != pat[0]
    ensures Replace(x + y, pat, rep) == x + Replace(y, pat, rep)
  {
    forall i | 0 <= i < |x| ensures !OccursAt(x + y, pat, i) {
      if i + |pat| <= |x + y| {
        assert (x + y)[i..i + |pat|][0] == x[i];
      }
    }
    ReplaceSkip(x + y, |x|, pat, rep);
    assert (x + y)[..|x|] == x && (x + y)[|x|..] == y;
  }

  /** The end of the line, `: "` + description + `"}`, holds no key. */
  lemma ReplaceTail(descr: string, pat: string, rep: string)
    requires |pat| > 2 && '"' !in pat && pat[0] != ':' && pat[0] != ' '
    requires !Contains(descr, pat)
    ensures Replace(": \"" + (descr + "\"}"), pat, rep) == ": \"" + (descr + "\"}")
  {
    assert Replace("\"}", pat, rep) == "\"}";
    ReplacePastPlain(descr, "\"}", pat, rep);
    ReplacePastLiteral(": \"", descr + "\"}", pat, rep);
  }

  /** The braced device line, its pieces grouped from the right. */
  lemma BracedLineShape(name: string, descr: string)
    ensures "{" + InventoryLine(name, descr) + "}"
         == "{" + ("NAME" + (": \"" + (name + ("\", " + ("DESCR" + (": \"" + (descr + "\"}")))))))
  {
    assert "NAME: \"" == "NAME" + ": \"";
    assert "\", DESCR: \"" == "\", " + "DESCR" + ": \"";
    assert "\"" + "}" == "\"}";
  }

  /** The quoted object, its pieces grouped from the right. */
  lemma QuotedLineShape(name: string, descr: string)
    ensures QuotedLine(name, descr)
         == "{" + ("\"NAME\"" + (": \"" + (name + ("\", " + ("\"DESCR\"" + (": \"" + (descr + "\"}")))))))
  {
    assert "\"NAME\"" + ": \"" == "\"" + "NAME" + "\": \"";
    assert "\", " + "\"DESCR\"" + ": \"" == "\"" + ", " + "\"" + "DESCR" + "\": \"";
    assert "\"}" == "\"" + "}";
  }

  /** The first replacement quotes the `NAME` key and nothing else. */
  lemma QuoteName(name: string, descr: string)
    requires Plain(name) && Plain(descr)
    ensures Replace("{" + ("NAME" + (": \"" + (name + ("\", " + ("DESCR" + (": \"" + (descr + "\"}"))))))),
                    "NAME", "\"NAME\"")
         == "{" + ("\"NAME\"" + (": \"" + (name + ("\", " + ("DESCR" + (": \"" + (descr + "\"}")))))))
  {
    var pat, rep := "NAME", "\"NAME\"";
    var tail := ": \"" + (descr + "\"}");
    ReplaceTail(descr, pat, rep);
    ReplacePastLiteral("DESCR", tail, pat, rep);
    ReplacePastLiteral("\", ", "DESCR" + tail, pat, rep);
    ReplacePastPlain(name, "\", " + ("DESCR" + tail), pat, rep);
    ReplacePastLiteral(": \"", name + ("\", " + ("DESCR" + tail)), pat, rep);
    ReplaceFront(": \"" + (name + ("\", " + ("DESCR" + tail))), pat, rep);
    ReplacePastLiteral("{", pat + (": \"" + (name + ("\", " + ("DESCR" + tail)))), pat, rep);
  }

  /** The second replacement quotes the `DESCR` key and nothing else. */
  lemma QuoteDescr(name: string, descr: string)
    requires Plain(name) && Plain(descr)
    ensures Replace("{" + ("\"NAME\"" + (": \"" + (name + ("\", " + ("DESCR" + (": \"" + (descr + "\"}"))))))),
                    "DESCR", "\"DESCR\"")
         == "{" + ("\"NAME\"" + (": \"" + (name + ("\", " + ("\"DESCR\"" + (": \"" + (descr + "\"}")))))))
  {
    var pat, rep := "DESCR", "\"DESCR\"";
    var tail := ": \"" + (descr + "\"}");
    ReplaceTail(descr, pat, rep);
    ReplaceFront(tail, pat, rep);
    ReplacePastLiteral("\", ", pat + tail, pat, rep);
    ReplacePastPlain(name, "\", " + (pat + tail), pat, rep);
    ReplacePastLiteral(": \"", name + ("\", " + (pat + tail)), pat, rep);
    ReplacePastLiteral("\"NAME\"", ": \"" + (name + ("\", " + (pat + tail))), pat, rep);
    ReplacePastLiteral("{", "\"NAME\"" + (": \"" + (name + ("\", " + (pat + tail)))), pat, rep);
  }

  /** What the key quoting makes of a device line. */
  lemma QuotedInventoryLine(name: string, descr: string)
    requires Plain(name) && Plain(descr)
    ensures Quoted(InventoryLine(name, descr)) == QuotedLine(name, descr)
  {
    BracedLineShape(name, descr);
    QuoteName(name, descr);
    QuoteDescr(name, descr);
    QuotedLineShape(name, descr);
  }

  // ---- Decoding the quoted line ----

  /** Plain text followed by a quote decodes to itself. */
  lemma {:induction false} StringBodyPlain(s: string, j: nat, x: string, acc: string)
    requires j + |x| < |s| && s[j..j + |x|] == x && s[j + |x|] == '"' && PlainChars(x)
    ensures StringBody(s, j, acc) == Some((acc + x, j + |x| + 1))
    decreases |x|
  {
    if x == [] {
      assert acc + x == acc;
    } else {
      assert s[j] == x[0];
      assert s[j + 1..j + 1 + |x[1..]|] == x[1..];
      StringBodyPlain(s, j + 1, x[1..], acc + [x[0]]);
      assert acc + [x[0]] + x[1..] == acc + x;
    }
  }

  /** The pieces of a `"key": "value"` member, found at `s[j..]`. */
  predicate MemberLaidOut(s: string, j: nat, key: string, value: string) {
    var k, v := |key|, |value|;
    && j + k + v + 6 <= |s|
    && s[j] == '"' && s[j + 1..j + 1 + k] == key && s[j + 1 + k] == '"' && s[j + 2 + k] == ':'
    && s[j + 3 + k] == ' ' && s[j + 4 + k] == '"'
    && s[j + 5 + k..j + 5 + k + v] == value && s[j + 5 + k + v] == '"'
  }

  /** Where the pieces of a member sit when its text is found at `s[j..]`. */
  lemma MemberLayout(s: string, j: nat, key: string, value: string)
    requires j + |key| + |value| + 6 <= |s| && s[j..j + |key| + |value| + 6] == MemberText(key, value)
    ensures MemberLaidOut(s, j, key, value)
  {
    var m := MemberText(key, value);
    var k, v := |key|, |value|;
    assert m[0] == '"' && m[1..1 + k] == key && m[1 + k] == '"' && m[2 + k] == ':';
    assert m[3 + k] == ' ' && m[4 + k] == '"' && m[5 + k..5 + k + v] == value && m[5 + k + v] == '"';
    var w := s[j..j + k + v + 6];
    forall i | 0 <= i < k ensures s[j + 1..j + 1 + k][i] == key[i] {
      assert s[j + 1 + i] == w[1 + i];
    }
    forall i | 0 <= i < v ensures s[j + 5 + k..j + 5 + k + v][i] == value[i] {
      assert s[j + 5 + k + i] == w[5 + k + i];
    }
  }

  /** A member with plain key and value at `s[j..]` decodes to that pair. */
  lemma MemberPlain(s: string, j: nat, key: string, value: string)
    requires PlainChars(key) && PlainChars(value) && MemberLaidOut(s, j, key, value)
    ensures Member(s, j) == Some((key, value, j + |key| + |value| + 6))
  {
    var k, v := |key|, |value|;
    StringBodyPlain(s, j + 1, key, []);
    assert [] + key == key;
    assert ParseString(s, j) == Some((key, j + 2 + k));
    assert SkipWs(s, j + 2 + k) == j + 2 + k;
    assert SkipWs(s, j + 3 + k) == j + 4 + k;
    StringBodyPlain(s, j + 5 + k, value, []);
    assert [] + value == value;
  }

  /** The members from `j` on are the first one and what follows it. */
  lemma MembersUnfold(s: string, j: nat, acc: JsonObject)
    requires j <= |s| && Member(s, j).Some?
    ensures var (key, value, e) := Member(s, j).value;
      Members(s, j, acc) == AfterMember(s, e, acc[key := value])
  {
  }

  /** A comma right after a member leads on to the next member. */
  lemma AfterComma(s: string, e: nat, obj: JsonObject)
    requires e < |s| && s[e] == ','
    ensures AfterMember(s, e, obj) == Members(s, SkipWs(s, e + 1), obj)
  {
  }

  /** A closing brace at the end right after a member ends the object. */
  lemma AfterBrace(s: string, e: nat, obj: JsonObject)
    requires e + 1 == |s| && s[e] == '}'
    ensures AfterMember(s, e, obj) == Some(obj)
  {
    assert SkipWs(s, e) == e && SkipWs(s, e + 1) == e + 1;
  }

  /** A plain member and a comma lead on to the next member. */
  lemma CommaMember(s: string, j: nat, key: string, value: string, acc: JsonObject)
    requires PlainChars(key) && PlainChars(value) && MemberLaidOut(s, j, key, value)
    requires j + |key| + |value| + 6 < |s| && s[j + |key| + |value| + 6] == ','
    ensures Members(s, j, acc) == Members(s, SkipWs(s, j + |key| + |value| + 7), acc[key := value])
  {
    MemberPlain(s, j, key, value);
    MembersUnfold(s, j, acc);
    AfterComma(s, j + |key| + |value| + 6, acc[key := value]);
  }

  /** A plain member right before the closing brace ends the object. */
  lemma LastMember(s: string, j: nat, key: string, value: string, acc: JsonObject)
    requires PlainChars(key) && PlainChars(value) && MemberLaidOut(s, j, key, value)
    requires j + |key| + |value| + 7 == |s| && s[|s| - 1] == '}'
    ensures Members(s, j, acc) == Some(acc[key := value])
  {
    MemberPlain(s, j, key, value);
    MembersUnfold(s, j, acc);
    AfterBrace(s, |s| - 1, acc[key := value]);
  }

  /** Where the members sit in a two-member object text. */
  lemma ObjectLayout(s: string, m1: string, m2: string)
    requires s == "{" + m1 + ", " + m2 + "}"
    ensures var a := 1 + |m1|; var b := a + 2;
      |s| == b + |m2| + 1 && s[0] == '{' && s[a] == ',' && s[a + 1] == ' ' && s[b + |m2|] == '}'
      && s[1..a] == m1 && s[b..b + |m2|] == m2
  {
  }

  /** An object of two plain members decodes to their pairs, the second
      winning if the keys clash. */
  lemma ParseTwoMembers(s: string, k1: string, v1: string, k2: string, v2: string)
    requires PlainChars(k1) && PlainChars(v1) && PlainChars(k2) && PlainChars(v2)
    requires var a := |k1| + |v1| + 7;
      && |s| == a + |k2| + |v2| + 9 && s[0] == '{' && MemberLaidOut(s, 1, k1, v1)
      && s[a] == ',' && s[a + 1] == ' ' && MemberLaidOut(s, a + 2, k2, v2) && s[|s| - 1] == '}'
    ensures ParseObject(s) == Some(map[k1 := v1][k2 := v2])
  {
    var a := |k1| + |v1| + 7;
    var acc1 := map[][k1 := v1];
    LastMember(s, a + 2, k2, v2, acc1);
    assert SkipWs(s, a + 1) == a + 2;
    CommaMember(s, 1, k1, v1, map[]);
    assert Members(s, 1, map[]) == Some(acc1[k2 := v2]);
    assert SkipWs(s, 0) == 0 && SkipWs(s, 1) == 1 && s[1] == '"';
    assert ParseObject(s) == Members(s, 1, map[]);
    assert acc1 == map[k1 := v1];
  }

  /** The quoted device line decodes to the object it describes. */
  lemma ParseQuotedLine(name: string, descr: string)
    requires PlainChars(name) && PlainChars(descr)
    ensures ParseObject(QuotedLine(name, descr)) == Some(map["NAME" := name, "DESCR" := descr])
  {
    var s := QuotedLine(name, descr);
    var m1, m2 := MemberText("NAME", name), MemberText("DESCR", descr);
    assert PlainChars("NAME") && PlainChars("DESCR");
    ObjectLayout(s, m1, m2);
    MemberLayout(s, 1, "NAME", name);
    MemberLayout(s, |m1| + 3, "DESCR", descr);
    ParseTwoMembers(s, "NAME", name, "DESCR", descr);
  }

  /** A line in the device's format decodes to its name and description. */
  lemma InventoryLineRoundTrip(name: string, descr: string)
    requires Plain(name) && Plain(descr)
    ensures ParseObject(Quoted(InventoryLine(name, descr))) == Some(map["NAME" := name, "DESCR" := descr])
  {
    QuotedInventoryLine(name, descr);
    ParseQuotedLine(name, descr);
  }
}
