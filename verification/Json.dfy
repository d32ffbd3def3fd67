/** Already-parsed JSON values with the handful of JavaScript operations the adapter applies to them. */
module Json {
  datatype Option<+T> = None | Some(value: T) {
    function GetOr(default: T): T {
      match this
      case Some(v) => v
      case None => default
    }
  }

  /** `Undefined` is what reading an absent property gives. A number is kept as its canonical text. */
  datatype Json =
    | Undefined
    | Null
    | Bool(b: bool)
    | Num(text: string)
    | Str(s: string)
    | Arr(items: seq<Json>)
    | Obj(fields: map<string, Json>)

  /** A protocol message is a JSON object. */
  type Message = map<string, Json>

  function Get(m: Message, name: string): Json {
    if name in m then m[name] else Undefined
  }

  /** The property access `j?.name`. */
  function Field(j: Json, name: string): Json {
    if j.Obj? then Get(j.fields, name) else Undefined
  }

  /** The properties copied by `{ ...j }`. */
  function Spread(j: Json): map<string, Json> {
    if j.Obj? then j.fields else map[]
  }

  function TypeOf(j: Json): string {
    match j
    case Undefined => "undefined"
    case Bool(_) => "boolean"
    case Num(_) => "number"
    case Str(_) => "string"
    case _ => "object"
  }

  function ToText(j: Json): string {
    match j
    case Undefined => "undefined"
    case Null => "null"
    case Bool(b) => if b then "true" else "false"
    case Num(text) => text
    case Str(s) => s
    case Arr(items) => JoinTexts(items)
    case Obj(_) => "[object Object]"
  }

  function JoinTexts(items: seq<Json>): string {
    if items == [] then ""
    else
      var first := if items[0].Undefined? || items[0].Null? then "" else ToText(items[0]);
      if |items| == 1 then first else first + "," + JoinTexts(items[1..])
  }

  /** White space as `String.prototype.trim` and `\s` see it. */
  predicate IsSpace(c: char) {
    var u := c as int;
    || 9 <= u <= 13
    || u in {32, 0xa0, 0x1680, 0x2028, 0x2029, 0x202f, 0x205f, 0x3000, 0xfeff}
    || 0x2000 <= u <= 0x200a
  }

  function TrimStart(s: string): string {
    if s != "" && IsSpace(s[0]) then TrimStart(s[1..]) else s
  }

  function TrimEnd(s: string): string {
    if s != "" && IsSpace(s[|s| - 1]) then TrimEnd(s[..|s| - 1]) else s
  }

  function Trim(s: string): string {
    TrimEnd(TrimStart(s))
  }

  /** A trimmed string is empty exactly when the original holds nothing but white space. */
  lemma TrimEmptyIffBlank(s: string)
    ensures Trim(s) == "" <==> forall i :: 0 <= i < |s| ==> IsSpace(s[i])
  {
    TrimStartDropsSpace(s);
    TrimEndEmptyIffBlank(TrimStart(s));
  }

  lemma {:induction false} TrimStartDropsSpace(s: string)
    ensures var t := TrimStart(s);
      && |t| <= |s|
      && t == s[|s| - |t|..]
      && (forall i :: 0 <= i < |s| - |t| ==> IsSpace(s[i]))
  {
    if s != "" && IsSpace(s[0]) {
      TrimStartDropsSpace(s[1..]);
      var t := TrimStart(s[1..]);
      forall i | 0 <= i < |s| - |t|
        ensures IsSpace(s[i])
      {
        if i > 0 {
          assert s[1..][i - 1] == s[i];
        }
      }
    }
  }

  lemma {:induction false} TrimEndEmptyIffBlank(s: string)
    ensures TrimEnd(s) == "" <==> forall i :: 0 <= i < |s| ==> IsSpace(s[i])
  {
    if s != "" && IsSpace(s[|s| - 1]) {
      TrimEndEmptyIffBlank(s[..|s| - 1]);
    }
  }

  lemma {:induction false} TrimEndDropsSpace(s: string)
    ensures var t := TrimEnd(s);
      && |t| <= |s| && t == s[..|t|]
      && (forall i :: |t| <= i < |s| ==> IsSpace(s[i]))
      && (t != "" ==> !IsSpace(t[|t| - 1]))
  {
    if s != "" && IsSpace(s[|s| - 1]) {
      TrimEndDropsSpace(s[..|s| - 1]);
    }
  }

  lemma {:induction false} TrimStartStops(s: string)
    ensures TrimStart(s) != "" ==> !IsSpace(TrimStart(s)[0])
  {
    if s != "" && IsSpace(s[0]) {
      TrimStartStops(s[1..]);
    }
  }

  predicate AllSpace(s: string) {
    forall i :: 0 <= i < |s| ==> IsSpace(s[i])
  }

  /** Trimming takes white space off both ends, all of it, and nothing else. */
  lemma TrimExactly(s: string) returns (front: string, back: string)
    ensures s == front + Trim(s) + back && AllSpace(front) && AllSpace(back)
    ensures Trim(s) != "" ==> !IsSpace(Trim(s)[0]) && !IsSpace(Trim(s)[|Trim(s)| - 1])
  {
    var middle := TrimStart(s);
    TrimStartDropsSpace(s);
    TrimStartStops(s);
    front := s[..|s| - |middle|];
    back := EndOf(middle);
    assert s == front + middle;
    assert front + middle == front + Trim(s) + back;
  }

  /** What trimming the end takes off. */
  lemma EndOf(middle: string) returns (back: string)
    ensures middle == TrimEnd(middle) + back && AllSpace(back)
    ensures TrimEnd(middle) != "" ==> TrimEnd(middle)[0] == middle[0] && !IsSpace(TrimEnd(middle)[|TrimEnd(middle)| - 1])
  {
    TrimEndDropsSpace(middle);
    back := middle[|TrimEnd(middle)|..];
  }

  /** Of the ASCII characters, the tab, the four line and page breaks after it, and the blank are white space. */
  lemma AsciiSpaces(c: char)
    requires c as int < 128
    ensures IsSpace(c) <==> c in "\t\n\U{000b}\U{000c}\r "
  {
    if IsSpace(c) {
      assert c in ['\t', '\n', '\U{000b}', '\U{000c}', '\r', ' '];
    }
  }

  /** Following the property names from the value leads to `target`. */
  predicate At(j: Json, names: seq<string>, target: Json)
    decreases |names|
  {
    if names == [] then j == target
    else j.Obj? && names[0] in j.fields && At(j.fields[names[0]], names[1..], target)
  }

  lemma AtOne(j: Json, name: string, target: Json)
    ensures At(j, [name], target) <==> j.Obj? && name in j.fields && j.fields[name] == target
  {
    assert [name][1..] == [];
  }

  /** Where a path leads to, reading property after property. */
  lemma AtMore(j: Json, name: string, names: seq<string>, target: Json)
    ensures At(j, [name] + names, target) <==> j.Obj? && name in j.fields && At(j.fields[name], names, target)
  {
    assert ([name] + names)[1..] == names;
  }
}
