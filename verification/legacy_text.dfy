/** The older engine's text helpers: `debug.valueToString`, `debug.getSignature` and the
    `StringBuilder` that assembles indented multi-line text. */
module LegacyText {
  import opened JsValues

  /** What valueToString shows after the type: functions and objects (null included) are
      opaque, strings are quoted, anything else is `String(v)`. */
  function Shown(v: Value): string {
    match v
    case Fn(_, _) => "[function]"
    case Null => "[object]"
    case Obj(_, _) => "[object]"
    case Str(s) => "\"" + s + "\""
    case _ => ToText(v)
  }

  /** debug.valueToString(v): the `typeof` of `v` in braces, then how the value shows. */
  function ValueToString(v: Value): string {
    "{" + TypeOf(v) + "}" + Shown(v)
  }

  /** The index of the first `c` in `s`, or `|s|` when there is none. */
  function FirstIndex(s: string, c: char): (i: nat)
    ensures i <= |s| && (i < |s| ==> s[i] == c)
    ensures forall j :: 0 <= j < i ==> s[j] != c
  {
    if s == [] then 0 else if s[0] == c then 0 else 1 + FirstIndex(s[1..], c)
  }

  /** Reads the type back out of a rendering: the text between the leading "{" and the first "}". */
  function ReadType(s: string): string {
    if |s| > 0 && s[0] == '{' then s[1..FirstIndex(s, '}')] else ""
  }

  /** No `typeof` result contains a closing brace. */
  lemma TypeOfHasNoBrace(v: Value)
    ensures forall j :: 0 <= j < |TypeOf(v)| ==> TypeOf(v)[j] != '}'
  {
    match v
    case Undefined =>
    case Null =>
    case Bool(_) =>
    case Int(_) =>
    case Str(_) =>
    case Obj(_, _) =>
    case Fn(_, _) =>
  }

  /** The type valueToString writes can always be read back. */
  lemma ReadTypeOfRendering(v: Value)
    ensures ReadType(ValueToString(v)) == TypeOf(v)
  {
    TypeOfHasNoBrace(v);
    ReadBracedType(TypeOf(v), Shown(v));
  }

  /** The text between a leading "{" and the first "}" is read back when it holds no "}". */
  lemma ReadBracedType(t: string, rest: string)
    requires forall j :: 0 <= j < |t| ==> t[j] != '}'
    ensures ReadType("{" + t + "}" + rest) == t
  {
    var s := "{" + t + "}" + rest;
    assert s[|t| + 1] == '}';
    forall j | 0 <= j < |t| + 1
      ensures s[j] != '}'
    {
      if j > 0 {
        assert s[j] == t[j - 1];
      }
    }
    assert FirstIndex(s, '}') == |t| + 1;
    assert s[1..|t| + 1] == t;
  }

  /** A value that valueToString shows in full: neither an object, `null` nor a function. */
  predicate Primitive(v: Value) {
    v.Undefined? || v.Bool? || v.Int? || v.Str?
  }

  lemma IntToStringInjective(a: int, b: int)
    requires IntToString(a) == IntToString(b)
    ensures a == b
  {
    if a < 0 && b < 0 {
      assert NatToString(-a) == IntToString(a)[1..];
      NatToStringInjective(-a, -b);
    } else if a >= 0 && b >= 0 {
      NatToStringInjective(a, b);
    } else if a < 0 {
      SignedTextsDiffer(a, b);
    } else {
      SignedTextsDiffer(b, a);
    }
  }

  /** A negative number's text starts with "-", a non-negative one's with a digit. */
  lemma SignedTextsDiffer(a: int, b: int)
    requires a < 0 <= b
    ensures IntToString(a) != IntToString(b)
  {
    assert IntToString(a)[0] == '-';
    assert '0' <= IntToString(b)[0] <= '9';
  }

  /** Two primitive values render alike only when they are the same value: `5` and `"5"`, or
      `true` and `"true"`, are told apart. */
  lemma PrimitiveRenderingIsInjective(a: Value, b: Value)
    requires Primitive(a) && Primitive(b) && ValueToString(a) == ValueToString(b)
    ensures a == b
  {
    ReadTypeOfRendering(a);
    ReadTypeOfRendering(b);
    var n := |TypeOf(a)| + 2;
    assert Shown(a) == ValueToString(a)[n..] == Shown(b);
    match a
    case Undefined =>
    case Bool(_) =>
    case Int(i) =>
      IntToStringInjective(i, b.i);
    case Str(s) =>
      assert s == Shown(a)[1..|Shown(a)| - 1];
  }

  /** Objects and functions are opaque: `null` and every object render alike, and so do all
      functions, whatever their text. */
  lemma OpaqueRenderings(id: nat, text: string)
    ensures ValueToString(Null) == ValueToString(Obj(id, text)) == "{object}[object]"
    ensures ValueToString(Fn(id, text)) == "{function}[function]"
  {
    BracedRendering(Null, "object", "[object]");
    BracedRendering(Obj(id, text), "object", "[object]");
    BracedRendering(Fn(id, text), "function", "[function]");
    assert "{" + "object" + "}" + "[object]" == "{object}[object]";
    assert "{" + "function" + "}" + "[function]" == "{function}[function]";
  }

  lemma BracedRendering(v: Value, t: string, shown: string)
    requires TypeOf(v) == t && Shown(v) == shown
    ensures ValueToString(v) == "{" + t + "}" + shown
  {
  }

  /** A string is shown in double quotes after its type, so its text can be read back. */
  lemma StringRendering(s: string)
    ensures var r := ValueToString(Str(s)); r[..8] == "{string}" && r[9..|r| - 1] == s
  {
  }

  /** The renderings of a sequence of values. */
  function Renderings(args: seq<Value>): (r: seq<string>)
    ensures |r| == |args| && forall i :: 0 <= i < |args| ==> r[i] == ValueToString(args[i])
  {
    seq(|args|, i requires 0 <= i < |args| => ValueToString(args[i]))
  }

  /** The arguments getSignature shows: all of them, or a lone `undefined` when there is none
      (after its loop it always renders `args[i]`; with no arguments the loop does not run, so
      that is `args[0]`, which is `undefined`). */
  function ShownArguments(args: seq<Value>): (r: seq<Value>)
    ensures |r| >= 1 && (args != [] ==> r == args)
  {
    if args == [] then [Undefined] else args
  }

  /** getSignature(args, name): the name, then the renderings of the shown arguments separated
      by ", " in parentheses. */
  function Signature(args: seq<Value>, name: string): string {
    name + "(" + Join(Renderings(ShownArguments(args)), ", ") + ")"
  }

  /** `parts.join("")`. */
  function Concat(parts: seq<string>): string {
    Join(parts, "")
  }

  lemma ConcatSnoc(parts: seq<string>, p: string)
    ensures Concat(parts + [p]) == Concat(parts) + p
  {
    if parts != [] {
      assert (parts + [p])[..|parts|] == parts;
    }
  }

  lemma AppendTwo(parts: seq<string>, p: string, q: string)
    ensures Concat(parts + [p, q]) == Concat(parts) + p + q
  {
    ConcatSnoc(parts, p);
    ConcatSnoc(parts + [p], q);
    assert parts + [p, q] == parts + [p] + [q];
  }

  /** The renderings of one more argument are the earlier ones and its own. */
  lemma RenderingsSnoc(args: seq<Value>, i: nat)
    requires i < |args|
    ensures Renderings(args[..i + 1]) == Renderings(args[..i]) + [ValueToString(args[i])]
  {
    var r := Renderings(args[..i + 1]);
    var q := Renderings(args[..i]) + [ValueToString(args[i])];
    assert |r| == |q|;
    forall j | 0 <= j < |r|
      ensures r[j] == q[j]
    {
      assert args[..i + 1][j] == args[j];
      if j < i {
        assert args[..i][j] == args[j];
      }
    }
  }

  /** Joining one more part adds the separator and the part. */
  lemma JoinSnoc(parts: seq<string>, p: string, sep: string)
    requires parts != []
    ensures Join(parts + [p], sep) == Join(parts, sep) + sep + p
  {
    assert (parts + [p])[..|parts|] == parts;
  }

  /** The text of an open argument list grows by one part and a separator. */
  lemma OpenListStep(parts: seq<string>, p: string, name: string, text: string)
    requires parts == [] ==> text == name + "("
    requires parts != [] ==> text == name + "(" + Join(parts, ", ") + ", "
    ensures text + p + ", " == name + "(" + Join(parts + [p], ", ") + ", "
  {
    if parts == [] {
      assert parts + [p] == [p];
    } else {
      JoinSnoc(parts, p, ", ");
    }
  }

  /** Closing a list after one more part: the part follows a separator. */
  lemma ClosedListStep(parts: seq<string>, p: string, name: string)
    requires parts != []
    ensures name + "(" + Join(parts + [p], ", ") + ")" == name + "(" + Join(parts, ", ") + ", " + p + ")"
  {
    JoinSnoc(parts, p, ", ");
  }

  /** One turn of getSignature's loop adds the next rendering and a separator. */
  lemma SignatureLoopStep(args: seq<Value>, name: string, i: nat, text: string)
    requires i < |args|
    requires i == 0 ==> text == name + "("
    requires i > 0 ==> text == name + "(" + Join(Renderings(args[..i]), ", ") + ", "
    ensures text + ValueToString(args[i]) + ", " == name + "(" + Join(Renderings(args[..i + 1]), ", ") + ", "
  {
    RenderingsSnoc(args, i);
    OpenListStep(Renderings(args[..i]), ValueToString(args[i]), name, text);
  }

  /** After the loop, the last argument (or `undefined`) and ")" complete the signature. */
  lemma SignatureLastStep(args: seq<Value>, name: string, i: nat, text: string)
    requires if args == [] then i == 0 else i == |args| - 1
    requires i == 0 ==> text == name + "("
    requires i > 0 ==> text == name + "(" + Join(Renderings(args[..i]), ", ") + ", "
    ensures text + ValueToString(if i < |args| then args[i] else Undefined) + ")" == Signature(args, name)
  {
    if i > 0 {
      InitAndLast(args);
      SignatureOneMore(args[..i], args[i], name);
    } else if args == [] {
      SignatureOfOne(Undefined, name);
    } else {
      assert args == [args[0]];
      SignatureOfOne(args[0], name);
    }
  }

  /** A non-empty sequence is its front followed by its last element. */
  lemma InitAndLast<T>(s: seq<T>)
    requires s != []
    ensures s[..|s| - 1] + [s[|s| - 1]] == s
  {
  }

  /** A single argument, or none, which shows as `undefined`, is rendered alone in parentheses. */
  lemma SignatureOfOne(x: Value, name: string)
    ensures Signature([x], name) == name + "(" + ValueToString(x) + ")"
    ensures x == Undefined ==> Signature([], name) == Signature([x], name)
  {
    assert Renderings([x]) == [ValueToString(x)];
  }

  /** The signature with no argument shows one `undefined`. */
  lemma SignatureOfNoArguments(name: string)
    ensures Signature([], name) == name + "({undefined}undefined)"
  {
  }

  /** One more argument extends the argument list by ", " and its rendering. */
  lemma SignatureOneMore(args: seq<Value>, a: Value, name: string)
    requires args != []
    ensures Signature(args + [a], name) == name + "(" + Join(Renderings(args), ", ") + ", " + ValueToString(a) + ")"
  {
    var all := args + [a];
    assert all[..|args|] == args && all[..|args| + 1] == all;
    RenderingsSnoc(all, |args|);
    ClosedListStep(Renderings(args), ValueToString(a), name);
  }

  /** debug.getSignature(args, name): an index loop over all but the last argument, then the
      last argument (`undefined` when there is none) and the closing parenthesis. */
  method GetSignature(args: seq<Value>, name: string) returns (s: string)
    ensures s == Signature(args, name)
  {
    var arr := [name, "("];
    var i := 0;
    var len := |args| - 1;
    assert Concat(arr) == name + "(" by {
      assert arr[..1] == [name];
      assert Concat(arr) == Concat([name]) + "" + "(";
    }
    while i < len
      invariant 0 <= i <= |args| && (len >= 0 ==> i <= len)
      invariant i == 0 ==> Concat(arr) == name + "("
      invariant i > 0 ==> Concat(arr) == name + "(" + Join(Renderings(args[..i]), ", ") + ", "
    {
      AppendTwo(arr, ValueToString(args[i]), ", ");
      SignatureLoopStep(args, name, i, Concat(arr));
      arr := arr + [ValueToString(args[i]), ", "];
      i := i + 1;
    }
    var last := if 0 <= i < |args| then args[i] else Undefined;
    AppendTwo(arr, ValueToString(last), ")");
    SignatureLastStep(args, name, i, Concat(arr));
    arr := arr + [ValueToString(last), ")"];
    s := Concat(arr);
  }

  /** The indented line appendLine adds: a line break, `indention` spaces when it is positive,
      then the text. */
  function IndentedLine(indention: int, str: string): string {
    "\n" + Spaces(if indention > 0 then indention else 0) + str
  }

  /** Text assembled line by line with a common indention. */
  class StringBuilder {
    var buffer: seq<string>
    /** Number of spaces before each appended line; the prototype's default is 0. */
    var indention: int

    /** The text built so far: the buffer joined with "". */
    function ToString(): string
      reads this
    {
      Concat(buffer)
    }

    /** `new StringBuilder(str)`: the first line when `str` is non-empty, else nothing. */
    constructor (str: string)
      ensures buffer == (if str == "" then [] else [str]) && indention == 0
      ensures ToString() == str
    {
      buffer := if str == "" then [] else [str];
      indention := 0;
    }

    /** appendLine(str): adds exactly one line, indented by `indention` spaces. */
    method AppendLine(str: string)
      modifies this
      ensures indention == old(indention)
      ensures buffer == old(buffer) + [IndentedLine(indention, str)]
      ensures ToString() == old(ToString()) + IndentedLine(indention, str)
    {
      var line;
      if indention > 0 {
        JoinHolesIsSpaces(indention);
        line := "\n" + Join(Holes(indention + 1), " ") + str;
      } else {
        line := "\n" + str;
        assert line == IndentedLine(indention, str) by {
          assert Spaces(0) == "";
        }
      }
      ConcatSnoc(buffer, line);
      buffer := buffer + [line];
    }
  }
}
