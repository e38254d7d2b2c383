/** The canonical JSON text that audit hashes are taken over
    (`alembic/versions/0022_health_audit_events.py`), a reader of JSON, and that reading the text gives the
    value back.  A number is its printed text. */
module CanonicalJson {
  import opened Results
  import Sorting

  datatype Json =
    | Null
    | Bool(value: bool)
    | Num(text: string)
    | Str(text: string)
    | Arr(items: seq<Json>)
    | Obj(members: map<string, Json>)

  // ------------------------------------------------------------------ scalars

  function HexDigit(n: nat): char
    requires n < 16
  {
    "0123456789abcdef"[n]
  }

  /** A character of a string as PostgreSQL prints it. */
  function EscapeChar(c: char): string {
    if c == '"' then ['\\', '"']
    else if c == '\\' then ['\\', '\\']
    else if c == 8 as char then ['\\', 'b']
    else if c == 12 as char then ['\\', 'f']
    else if c == '\n' then ['\\', 'n']
    else if c == '\r' then ['\\', 'r']
    else if c == '\t' then ['\\', 't']
    else if c < ' ' then ['\\', 'u', '0', '0', HexDigit(c as int / 16), HexDigit(c as int % 16)]
    else [c]
  }

  function Escape(s: string): string { if s == "" then "" else EscapeChar(s[0]) + Escape(s[1..]) }

  function Quote(s: string): string { "\"" + (Escape(s) + "\"") }

  predicate NumChar(c: char) { '0' <= c <= '9' || c == '-' || c == '.' }

  predicate NumText(s: string) { s != "" && forall i :: 0 <= i < |s| ==> NumChar(s[i]) }

  /** Every number in the value carries the text of a number. */
  ghost predicate Valid(v: Json) {
    match v
    case Num(text) => NumText(text)
    case Arr(items) => forall i :: 0 <= i < |items| ==> Valid(items[i])
    case Obj(members) => forall k :: k in members ==> Valid(members[k])
    case _ => true
  }

  // ------------------------------------------------------------------ the renderer

  function Render(v: Json): string
    decreases v, 1
  {
    match v
    case Null => "null"
    case Bool(b) => if b then "true" else "false"
    case Num(text) => text
    case Str(text) => Quote(text)
    case Arr(_) => "[" + (RenderItems(v, 0) + "]")
    case Obj(members) => "{" + (RenderMembers(v, Sorting.SortedKeys(members.Keys)) + "}")
  }

  /** The items from the `i`-th on, separated by commas. */
  function RenderItems(v: Json, i: nat): string
    requires v.Arr? && i <= |v.items|
    decreases v, 0, |v.items| - i
  {
    if i == |v.items| then ""
    else if i + 1 == |v.items| then Render(v.items[i])
    else Render(v.items[i]) + ("," + RenderItems(v, i + 1))
  }

  /** The members under the given keys, separated by commas. */
  function RenderMembers(v: Json, keys: seq<string>): string
    requires v.Obj? && forall i :: 0 <= i < |keys| ==> keys[i] in v.members
    decreases v, 0, |keys|
  {
    if keys == [] then ""
    else
      var first := Quote(keys[0]) + (":" + Render(v.members[keys[0]]));
      if |keys| == 1 then first else first + ("," + RenderMembers(v, keys[1..]))
  }

  // ------------------------------------------------------------------ reading one value off the front

  predicate Delimiter(c: char) { c == ',' || c == ']' || c == '}' }

  /** What can follow a value: nothing, or a delimiter. */
  predicate Closes(rest: string) { rest == "" || Delimiter(rest[0]) }

  lemma {:induction false} Reassociate(a: string, b: string, c: string, d: string)
    ensures (a + (b + c)) + d == a + (b + (c + d))
  {
  }

  lemma {:induction false} EscapeStep(s: string, x: string)
    requires s != ""
    ensures Escape(s) + ("\"" + x) == EscapeChar(s[0]) + (Escape(s[1..]) + ("\"" + x))
  {
  }

  lemma {:induction false} QuoteOpen(s: string, x: string)
    ensures Quote(s) + x == "\"" + (Escape(s) + ("\"" + x))
  {
    Reassociate("\"", Escape(s), "\"", x);
  }

  /** How many characters at the front can belong to a number. */
  function Leading(a: string): (n: nat)
    ensures n <= |a|
  {
    if a == "" || !NumChar(a[0]) then 0 else 1 + Leading(a[1..])
  }

  lemma {:induction false} LeadingNumber(s: string, x: string)
    requires (forall i :: 0 <= i < |s| ==> NumChar(s[i])) && Closes(x)
    ensures Leading(s + x) == |s|
  {
    if s == "" {
      assert s + x == x;
    } else {
      LeadingNumber(s[1..], x);
      assert (s + x)[1..] == s[1..] + x;
    }
  }

  // ------------------------------------------------------------------ the shape of the text

  /** The first character tells the kinds of value apart. */
  predicate Opens(v: Json, c: char) {
    match v
    case Null => c == 'n'
    case Bool(b) => c == if b then 't' else 'f'
    case Num(_) => NumChar(c)
    case Str(_) => c == '"'
    case Arr(_) => c == '['
    case Obj(_) => c == '{'
  }

  lemma {:induction false} RenderOpens(v: Json, x: string)
    requires Valid(v)
    ensures Render(v) + x != "" && Opens(v, (Render(v) + x)[0])
  {
  }

  /** What follows the `i`-th item inside its array. */
  ghost function ItemsTail(v: Json, i: nat, x: string): string
    requires v.Arr? && i < |v.items|
  {
    if i + 1 == |v.items| then "]" + x else "," + (RenderItems(v, i + 1) + ("]" + x))
  }

  lemma {:induction false} ItemsOpen(v: Json, i: nat, x: string)
    requires v.Arr? && i < |v.items|
    ensures RenderItems(v, i) + ("]" + x) == Render(v.items[i]) + ItemsTail(v, i, x)
  {
    if i + 1 < |v.items| {
      Reassociate(Render(v.items[i]), ",", RenderItems(v, i + 1), "]" + x);
    }
  }

  /** What follows the first of the members. */
  ghost function MembersTail(v: Json, keys: seq<string>, x: string): string
    requires v.Obj? && keys != [] && forall i :: 0 <= i < |keys| ==> keys[i] in v.members
  {
    if |keys| == 1 then "}" + x else "," + (RenderMembers(v, keys[1..]) + ("}" + x))
  }

  lemma {:induction false} MembersOpen(v: Json, keys: seq<string>, x: string)
    requires v.Obj? && keys != [] && forall i :: 0 <= i < |keys| ==> keys[i] in v.members
    ensures RenderMembers(v, keys) + ("}" + x)
            == Quote(keys[0]) + (":" + (Render(v.members[keys[0]]) + MembersTail(v, keys, x)))
  {
    var value := Render(v.members[keys[0]]);
    var first := Quote(keys[0]) + (":" + value);
    if |keys| == 1 {
      Reassociate(Quote(keys[0]), ":", value, "}" + x);
    } else {
      var rest := RenderMembers(v, keys[1..]);
      Reassociate(first, ",", rest, "}" + x);
      Reassociate(Quote(keys[0]), ":", value, "," + (rest + ("}" + x)));
    }
  }

  lemma {:induction false} ArrayText(v: Json, x: string)
    requires v.Arr?
    ensures Render(v) + x == "[" + (RenderItems(v, 0) + ("]" + x))
  {
    Reassociate("[", RenderItems(v, 0), "]", x);
  }

  lemma {:induction false} ObjectText(v: Json, keys: seq<string>, x: string)
    requires v.Obj? && keys == Sorting.SortedKeys(v.members.Keys)
    ensures Render(v) + x == "{" + (RenderMembers(v, keys) + ("}" + x))
  {
    Reassociate("{", RenderMembers(v, keys), "}", x);
  }

  // ------------------------------------------------------------------ reading

  /** A hexadecimal digit in either case. */
  function HexValue(c: char): Option<nat> {
    if '0' <= c <= '9' then Some(c as int - '0' as int)
    else if 'a' <= c <= 'f' then Some(c as int - 'a' as int + 10)
    else if 'A' <= c <= 'F' then Some(c as int - 'A' as int + 10)
    else None
  }

  /** The two-character escapes of JSON (section 7 of RFC 8259), by their second character. */
  function Unescaped(c: char): Option<char> {
    match c
    case '"' => Some('"')
    case '\\' => Some('\\')
    case '/' => Some('/')
    case 'b' => Some(8 as char)
    case 'f' => Some(12 as char)
    case 'n' => Some(10 as char)
    case 'r' => Some(13 as char)
    case 't' => Some(9 as char)
    case _ => None
  }

  /** The character a four-digit escape stands for; surrogates, which come in pairs, are left out. */
  function FourDigits(s: string): Option<char>
    requires |s| == 4
  {
    var a, b, c, d := HexValue(s[0]), HexValue(s[1]), HexValue(s[2]), HexValue(s[3]);
    if a.None? || b.None? || c.None? || d.None? then None
    else
      var n := 4096 * a.value + 256 * b.value + 16 * c.value + d.value;
      if 0 <= n < 0xD800 then Some(n as char) else None
  }

  /** The string whose body begins here, and what follows its closing quote. */
  function ReadString(s: string): (r: Option<(string, string)>)
    ensures r.Some? ==> |r.value.1| < |s|
  {
    if s == "" then None
    else if s[0] == '"' then Some(("", s[1..]))
    else if s[0] != '\\' then (if s[0] < ' ' then None else After(Some(s[0]), ReadString(s[1..])))
    else if |s| < 2 then None
    else if s[1] != 'u' then After(Unescaped(s[1]), ReadString(s[2..]))
    else if |s| < 6 then None
    else After(FourDigits(s[2..6]), ReadString(s[6..]))
  }

  function After(c: Option<char>, rest: Option<(string, string)>): Option<(string, string)> {
    if c.None? || rest.None? then None else Some(([c.value] + rest.value.0, rest.value.1))
  }

  /** A reader of JSON without white space: the value at the front of the text, and what follows it.  The members
      of an object have to come in ascending order of their keys. */
  function Read(s: string): (r: Option<(Json, string)>)
    ensures r.Some? ==> |r.value.1| < |s|
    decreases |s|, 1
  {
    if s == "" then None
    else if s[0] == '"' then
      var text := ReadString(s[1..]);
      if text.None? then None else Some((Str(text.value.0), text.value.1))
    else if "[]" <= s then Some((Arr([]), s[2..]))
    else if s[0] == '[' then
      var items := ReadItems(s[1..]);
      if items.None? then None else Some((Arr(items.value.0), items.value.1))
    else if "{}" <= s then Some((Obj(map[]), s[2..]))
    else if s[0] == '{' then
      var members := ReadMembers(s[1..], None);
      if members.None? then None else Some((Obj(members.value.0), members.value.1))
    else if "null" <= s then Some((Null, s[4..]))
    else if "true" <= s then Some((Bool(true), s[4..]))
    else if "false" <= s then Some((Bool(false), s[5..]))
    else
      var n := Leading(s);
      if n == 0 then None else Some((Num(s[..n]), s[n..]))
  }

  function ReadItems(s: string): (r: Option<(seq<Json>, string)>)
    ensures r.Some? ==> |r.value.1| < |s|
    decreases |s|, 2
  {
    var first := Read(s);
    if first.None? || first.value.1 == "" then None
    else
      var rest := first.value.1;
      if rest[0] == ']' then Some(([first.value.0], rest[1..]))
      else if rest[0] != ',' then None
      else
        var more := ReadItems(rest[1..]);
        if more.None? then None else Some(([first.value.0] + more.value.0, more.value.1))
  }

  function ReadMembers(s: string, last: Option<string>): (r: Option<(map<string, Json>, string)>)
    ensures r.Some? ==> |r.value.1| < |s|
    decreases |s|, 2
  {
    if s == "" || s[0] != '"' then None
    else
      var key := ReadString(s[1..]);
      if key.None? || key.value.1 == "" || key.value.1[0] != ':' then None
      else if last.Some? && !Sorting.Less(last.value, key.value.0) then None
      else
        var value := Read(key.value.1[1..]);
        if value.None? || value.value.1 == "" then None
        else
          var rest := value.value.1;
          if rest[0] == '}' then Some((map[key.value.0 := value.value.0], rest[1..]))
          else if rest[0] != ',' then None
          else
            var more := ReadMembers(rest[1..], Some(key.value.0));
            if more.None? then None else Some((more.value.0[key.value.0 := value.value.0], more.value.1))
  }

  // ------------------------------------------------------------------ what is printed is read back

  lemma {:induction false} HexReads(n: nat)
    requires n < 16
    ensures HexValue(HexDigit(n)) == Some(n)
  {
  }

  /** A printed character is read as that character. */
  lemma {:induction false} ReadChar(c: char, x: string)
    ensures ReadString(EscapeChar(c) + x) == After(Some(c), ReadString(x))
  {
    var s := EscapeChar(c) + x;
    if |EscapeChar(c)| == 6 {
      HexReads(0);
      HexReads(c as int / 16);
      HexReads(c as int % 16);
      assert s[2..6] == ['0', '0', HexDigit(c as int / 16), HexDigit(c as int % 16)] && s[6..] == x;
      assert FourDigits(s[2..6]) == Some(c);
    } else if |EscapeChar(c)| == 2 {
      assert s[0] == '\\' && s[1] == EscapeChar(c)[1] && s[2..] == x;
    } else {
      assert s[0] == c && s[1..] == x;
    }
  }

  lemma {:induction false} ReadEscaped(s: string, x: string)
    ensures ReadString(Escape(s) + ("\"" + x)) == Some((s, x))
  {
    if s == "" {
      assert Escape(s) + ("\"" + x) == "\"" + x && ("\"" + x)[1..] == x;
    } else {
      EscapeStep(s, x);
      ReadEscaped(s[1..], x);
      ReadChar(s[0], Escape(s[1..]) + ("\"" + x));
      assert s == [s[0]] + s[1..];
    }
  }

  lemma {:induction false} ReadQuoted(s: string, x: string)
    ensures var t := Quote(s) + x; t != "" && t[0] == '"' && ReadString(t[1..]) == Some((s, x))
  {
    QuoteOpen(s, x);
    var body := Escape(s) + ("\"" + x);
    assert ("\"" + body)[1..] == body;
    ReadEscaped(s, x);
  }

  lemma {:induction false} ReadNumber(s: string, x: string)
    requires NumText(s) && Closes(x)
    ensures Read(s + x) == Some((Num(s), x))
  {
    LeadingNumber(s, x);
    assert (s + x)[0] == s[0] && (s + x)[..|s|] == s && (s + x)[|s|..] == x;
    assert "null"[0] == 'n' && "true"[0] == 't' && "false"[0] == 'f' && "[]"[0] == '[' && "{}"[0] == '{';
  }

  lemma {:induction false} ReadWord(v: Json, x: string)
    requires v.Null? || v.Bool?
    ensures Read(Render(v) + x) == Some((v, x))
  {
    var word := Render(v);
    var s := word + x;
    assert s[|word|..] == x && word <= s && s[0] == word[0];
    assert "null"[0] == 'n' && "true"[0] == 't' && "false"[0] == 'f' && "[]"[0] == '[' && "{}"[0] == '{';
  }

  /** Whatever delimiter follows, a printed value is read back as itself, and what follows is left. */
  lemma {:induction false} ReadRendered(v: Json, x: string)
    requires Valid(v) && Closes(x)
    ensures Read(Render(v) + x) == Some((v, x))
    decreases v, 2
  {
    match v {
      case Num(s) => ReadNumber(s, x);
      case Str(s) =>
        ReadQuoted(s, x);
      case Arr(_) => ReadArray(v, x);
      case Obj(_) => ReadObject(v, x);
      case _ => ReadWord(v, x);
    }
  }

  lemma {:induction false} BracketText(open: char, close: char, body: string, s: string)
    requires s == [open] + body && body != ""
    ensures s[0] == open && s[1..] == body && ([open, close] <= s <==> body[0] == close)
    ensures body[0] == close ==> s[2..] == body[1..]
  {
  }

  lemma {:induction false} ReadArray(v: Json, x: string)
    requires v.Arr? && Valid(v) && Closes(x)
    ensures Read(Render(v) + x) == Some((v, x))
    decreases v, 1
  {
    var body := RenderItems(v, 0) + ("]" + x);
    ArrayText(v, x);
    BracketText('[', ']', body, Render(v) + x);
    assert "[]" == ['[', ']'];
    if v.items == [] {
      assert body == "]" + x && body[1..] == x;
    } else {
      ItemsOpen(v, 0, x);
      RenderOpens(v.items[0], ItemsTail(v, 0, x));
      ReadAllItems(v, 0, x);
      assert v.items[0..] == v.items;
    }
  }

  /** One item is read, and then either the array ends or the items go on. */
  lemma {:induction false} ReadItem(s: string, v: Json, tail: string)
    requires Read(s) == Some((v, tail)) && tail != ""
    ensures tail[0] == ']' ==> ReadItems(s) == Some(([v], tail[1..]))
    ensures tail[0] == ',' && ReadItems(tail[1..]).Some? ==>
              ReadItems(s) == Some(([v] + ReadItems(tail[1..]).value.0, ReadItems(tail[1..]).value.1))
  {
  }

  lemma {:induction false} ReadAllItems(v: Json, i: nat, x: string)
    requires v.Arr? && Valid(v) && i < |v.items|
    ensures ReadItems(RenderItems(v, i) + ("]" + x)) == Some((v.items[i..], x))
    decreases v, 0, |v.items| - i
  {
    var tail := ItemsTail(v, i, x);
    ItemsOpen(v, i, x);
    ReadRendered(v.items[i], tail);
    ReadItem(RenderItems(v, i) + ("]" + x), v.items[i], tail);
    if i + 1 == |v.items| {
      assert tail[0] == ']' && tail[1..] == x;
      assert v.items[i..] == [v.items[i]];
    } else {
      assert tail[0] == ',' && tail[1..] == RenderItems(v, i + 1) + ("]" + x);
      ReadAllItems(v, i + 1, x);
      Sorting.SliceCons(v.items, i);
    }
  }

  ghost predicate Ascending(keys: seq<string>) {
    forall i, j :: 0 <= i < j < |keys| ==> Sorting.Less(keys[i], keys[j])
  }

  lemma {:induction false} ReadNoMembers(x: string)
    ensures Read("{" + ("}" + x)) == Some((Obj(map[]), x))
  {
    BracketText('{', '}', "}" + x, "{" + ("}" + x));
    assert "{}" == ['{', '}'] && "[]"[0] == '[' && ("}" + x)[1..] == x;
  }

  lemma {:induction false} ReadSomeMembers(body: string, members: map<string, Json>, x: string)
    requires body != "" && body[0] == '"' && ReadMembers(body, None) == Some((members, x))
    ensures Read("{" + body) == Some((Obj(members), x))
  {
    BracketText('{', '}', body, "{" + body);
    assert "{}" == ['{', '}'] && "[]"[0] == '[';
  }

  lemma {:induction false} ReadObject(v: Json, x: string)
    requires v.Obj? && Valid(v) && Closes(x)
    ensures Read(Render(v) + x) == Some((v, x))
    decreases v, 1
  {
    var keys := Sorting.SortedKeys(v.members.Keys);
    ObjectText(v, keys, x);
    if keys == [] {
      assert RenderMembers(v, keys) + ("}" + x) == "}" + x;
      ReadNoMembers(x);
      assert v.members == map[];
    } else {
      var body := RenderMembers(v, keys) + ("}" + x);
      MembersOpen(v, keys, x);
      ReadAllMembers(v, keys, None, x);
      AllRestricted(v.members, keys);
      ReadSomeMembers(body, v.members, x);
    }
  }

  lemma {:induction false} AllRestricted(members: map<string, Json>, keys: seq<string>)
    requires forall k :: k in members <==> k in keys
    ensures Restricted(members, keys) == members
  {
  }

  /** The members under these keys. */
  function Restricted(members: map<string, Json>, keys: seq<string>): map<string, Json>
    requires forall i :: 0 <= i < |keys| ==> keys[i] in members
  {
    map k | k in keys :: members[k]
  }

  /** One member is read, and then either the object ends or the members go on. */
  lemma {:induction false} ReadMember(s: string, last: Option<string>, key: string, v: Json, tail: string)
    requires s == Quote(key) + (":" + (Render(v) + tail)) && Read(Render(v) + tail) == Some((v, tail))
    requires (last.Some? ==> Sorting.Less(last.value, key)) && tail != ""
    ensures tail[0] == '}' ==> ReadMembers(s, last) == Some((map[key := v], tail[1..]))
    ensures tail[0] == ',' && ReadMembers(tail[1..], Some(key)).Some? ==>
              var more := ReadMembers(tail[1..], Some(key)).value;
              ReadMembers(s, last) == Some((more.0[key := v], more.1))
  {
    var value := Render(v) + tail;
    ReadQuoted(key, ":" + value);
    assert (":" + value)[1..] == value;
  }

  lemma {:induction false} ReadAllMembers(v: Json, keys: seq<string>, last: Option<string>, x: string)
    requires v.Obj? && Valid(v) && keys != [] && Ascending(keys)
    requires forall i :: 0 <= i < |keys| ==> keys[i] in v.members
    requires last.Some? ==> Sorting.Less(last.value, keys[0])
    ensures ReadMembers(RenderMembers(v, keys) + ("}" + x), last) == Some((Restricted(v.members, keys), x))
    decreases v, 0, |keys|
  {
    var tail := MembersTail(v, keys, x);
    MembersOpen(v, keys, x);
    ReadRendered(v.members[keys[0]], tail);
    ReadMember(RenderMembers(v, keys) + ("}" + x), last, keys[0], v.members[keys[0]], tail);
    if |keys| == 1 {
      assert tail[0] == '}' && tail[1..] == x;
      assert Restricted(v.members, keys) == map[keys[0] := v.members[keys[0]]];
    } else {
      assert tail[0] == ',' && tail[1..] == RenderMembers(v, keys[1..]) + ("}" + x);
      ReadAllMembers(v, keys[1..], Some(keys[0]), x);
      RestrictedCons(v.members, keys);
    }
  }

  lemma {:induction false} RestrictedCons(members: map<string, Json>, keys: seq<string>)
    requires keys != [] && forall i :: 0 <= i < |keys| ==> keys[i] in members
    ensures Restricted(members, keys) == Restricted(members, keys[1..])[keys[0] := members[keys[0]]]
  {
    assert forall k :: k in keys <==> k == keys[0] || k in keys[1..];
  }

  /** The canonical text is JSON, with the members of every object in ascending order of their keys, and reading it
      gives the value back. */
  lemma {:induction false} RoundTrip(v: Json)
    requires Valid(v)
    ensures Read(Render(v)) == Some((v, ""))
  {
    assert Render(v) + "" == Render(v);
    ReadRendered(v, "");
  }

  /** From any text that begins with a value and a delimiter, value and remainder are determined. */
  lemma {:induction false} RenderUnique(a: Json, x: string, b: Json, y: string)
    requires Valid(a) && Valid(b) && Closes(x) && Closes(y) && Render(a) + x == Render(b) + y
    ensures a == b && x == y
  {
    ReadRendered(a, x);
    ReadRendered(b, y);
  }

  /** So are a quoted string and what follows it. */
  lemma {:induction false} QuoteUnique(s: string, x: string, t: string, y: string)
    requires Quote(s) + x == Quote(t) + y
    ensures s == t && x == y
  {
    ReadQuoted(s, x);
    ReadQuoted(t, y);
  }

  /** Equal canonical texts come only from equal values, at any depth. */
  lemma {:induction false} CanonicalInjective(a: Json, b: Json)
    requires Valid(a) && Valid(b) && Render(a) == Render(b)
    ensures a == b
  {
    RoundTrip(a);
    RoundTrip(b);
  }

  // ------------------------------------------------------------------ equality of stored documents

  /** All digits of a number's text, read as one number. */
  function Digits(s: string): nat {
    if s == "" then 0
    else
      var n, c := |s| - 1, s[|s| - 1];
      if '0' <= c <= '9' then 10 * Digits(s[..n]) + (c as int - '0' as int) else Digits(s[..n])
  }

  /** How many characters follow the decimal point. */
  function Scale(s: string): nat {
    if '.' !in s then 0 else if s[0] == '.' then |s| - 1 else Scale(s[1..])
  }

  function Pow10(n: nat): nat
    ensures 0 < Pow10(n)
  {
    if n == 0 then 1 else 10 * Pow10(n - 1)
  }

  /** The number a text stands for. */
  function NumValue(s: string): real {
    var magnitude := Digits(s) as real / Pow10(Scale(s)) as real;
    if s != "" && s[0] == '-' then -magnitude else magnitude
  }

  lemma {:induction false} DigitsSnoc(s: string, c: char)
    ensures Digits(s + [c]) == if '0' <= c <= '9' then 10 * Digits(s) + (c as int - '0' as int) else Digits(s)
  {
    assert (s + [c])[..|s|] == s;
  }

  lemma {:induction false} ScaleSnoc(s: string, c: char)
    requires '.' in s
    ensures Scale(s + [c]) == Scale(s) + 1
  {
    var t := s + [c];
    assert t[0] == s[0] && '.' in t;
    if s[0] != '.' {
      assert '.' in s[1..] && t[1..] == s[1..] + [c];
      ScaleSnoc(s[1..], c);
    }
  }

  /** A zero added after the decimal point does not change a number. */
  lemma {:induction false} TrailingZero(s: string)
    requires '.' in s
    ensures NumValue(s + "0") == NumValue(s)
  {
    DigitsSnoc(s, '0');
    ScaleSnoc(s, '0');
    SameFraction(Digits(s) as real, Pow10(Scale(s)) as real);
  }

  lemma {:induction false} SameFraction(d: real, p: real)
    requires 0.0 < p
    ensures 10.0 * d / (10.0 * p) == d / p
  {
  }

  lemma {:induction false} DigitsAfterSign(s: string)
    ensures Digits("-" + s) == Digits(s)
  {
    if s != "" {
      var n := |s| - 1;
      DigitsAfterSign(s[..n]);
      assert ("-" + s)[..n + 1] == "-" + s[..n];
    }
  }

  /** A minus sign makes a number its opposite. */
  lemma {:induction false} Negated(s: string)
    requires s != "" && s[0] != '-'
    ensures NumValue("-" + s) == -NumValue(s)
  {
    DigitsAfterSign(s);
    assert ("-" + s)[1..] == s;
  }

  /** The database's own equality of documents: numbers count by value, however they are printed. */
  predicate SameValue(a: Json, b: Json) {
    match (a, b)
    case (Num(s), Num(t)) => NumValue(s) == NumValue(t)
    case (Arr(s), Arr(t)) => |s| == |t| && forall i :: 0 <= i < |s| ==> SameValue(s[i], t[i])
    case (Obj(s), Obj(t)) => s.Keys == t.Keys && forall k :: k in s ==> SameValue(s[k], t[k])
    case _ => a == b
  }

  /** Equal numbers in corresponding places are printed alike. */
  predicate PrintedAlike(a: Json, b: Json) {
    match (a, b)
    case (Num(s), Num(t)) => NumValue(s) == NumValue(t) ==> s == t
    case (Arr(s), Arr(t)) => forall i :: 0 <= i < |s| && i < |t| ==> PrintedAlike(s[i], t[i])
    case (Obj(s), Obj(t)) => forall k :: k in s && k in t ==> PrintedAlike(s[k], t[k])
    case _ => true
  }

  /** Documents are the same text exactly when they have the same value and print it alike. */
  lemma {:induction false} SameTextIff(a: Json, b: Json)
    ensures a == b <==> SameValue(a, b) && PrintedAlike(a, b)
    decreases a
  {
    match (a, b)
    case (Arr(s), Arr(t)) =>
      forall i | 0 <= i < |s| && i < |t| ensures s[i] == t[i] <==> SameValue(s[i], t[i]) && PrintedAlike(s[i], t[i]) {
        SameTextIff(s[i], t[i]);
      }
    case (Obj(s), Obj(t)) =>
      forall k | k in s && k in t ensures s[k] == t[k] <==> SameValue(s[k], t[k]) && PrintedAlike(s[k], t[k]) {
        SameTextIff(s[k], t[k]);
      }
    case _ =>
  }

  /** One and one point nought are one value in two texts. */
  lemma {:induction false} OneInTwoTexts()
    ensures NumValue("1") == NumValue("1.0") && NumText("1") && NumText("1.0")
    ensures SameValue(Num("1"), Num("1.0")) && Num("1") != Num("1.0")
  {
    assert "1.0"[1..] == ".0" && "1.0"[..2] == "1." && "1."[..1] == "1" && "1"[..0] == "";
    assert Digits("1") == 1 && Digits("1.") == 1 && Digits("1.0") == 10;
    assert Scale(".0") == 1 && Scale("1.0") == 1 && Scale("1") == 0;
    assert Pow10(1) == 10;
    assert "1" != "1.0" by { assert |"1"| != |"1.0"|; }
  }
}
