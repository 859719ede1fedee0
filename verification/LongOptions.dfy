/** The two helpers that every argument loop of main.go shares, and command
    lines as a user writes them: plain arguments and one option in two forms. */
module LongOptions {
  import opened Types

  /** `strings.CutPrefix(arg, name + "=")`. */
  function TrimOption(arg: string, name: string): Option<string> {
    var prefix := name + "=";
    if |prefix| <= |arg| && arg[..|prefix|] == prefix then Some(arg[|prefix|..]) else None
  }

  predicate HasLongOption(arg: string, name: string) {
    TrimOption(arg, name).Some?
  }

  /** The value is exactly what follows the name and the equals sign. */
  lemma TrimOptionIff(arg: string, name: string, value: string)
    ensures TrimOption(arg, name) == Some(value) <==> arg == name + "=" + value
  {
    var prefix := name + "=";
    if arg == prefix + value {
      assert arg[..|prefix|] == prefix && arg[|prefix|..] == value;
    }
    if TrimOption(arg, name) == Some(value) {
      assert arg == arg[..|prefix|] + arg[|prefix|..];
    }
  }

  // ---------- Command lines ----------

  /** `arg`, `--name value` or `--name=value`. */
  datatype Item = Plain(arg: string) | Spaced(value: string) | Equals(value: string)

  /** A plain argument is none of the forms of the option. */
  ghost predicate IsPlain(arg: string, name: string) {
    arg != name && forall value :: arg != name + "=" + value
  }

  ghost predicate WellFormed(name: string, items: seq<Item>) {
    forall i | 0 <= i < |items| && items[i].Plain? :: IsPlain(items[i].arg, name)
  }

  function ArgsOf(name: string, item: Item): seq<string> {
    match item
    case Plain(arg) => [arg]
    case Spaced(value) => [name, value]
    case Equals(value) => [name + "=" + value]
  }

  function Line(name: string, items: seq<Item>): seq<string> {
    if items == [] then [] else ArgsOf(name, items[0]) + Line(name, items[1..])
  }

  /** The plain arguments, in order. */
  function Plains(items: seq<Item>): seq<string> {
    if items == [] then []
    else (if items[0].Plain? then [items[0].arg] else []) + Plains(items[1..])
  }

  /** The values given to the option, in order. */
  function Values(items: seq<Item>): seq<string> {
    if items == [] then []
    else (if items[0].Plain? then [] else [items[0].value]) + Values(items[1..])
  }

  /** A last `--name` without its value. */
  function Dangling(name: string, dangling: bool): seq<string> {
    if dangling then [name] else []
  }

  lemma Assoc(a: seq<string>, b: seq<string>, c: seq<string>)
    ensures (a + b) + c == a + (b + c)
  {
  }

  lemma LineCons(name: string, items: seq<Item>, end: seq<string>)
    requires items != []
    ensures Line(name, items) + end == ArgsOf(name, items[0]) + (Line(name, items[1..]) + end)
  {
    Assoc(ArgsOf(name, items[0]), Line(name, items[1..]), end);
  }

  lemma PartsCons(items: seq<Item>)
    requires items != []
    ensures Plains(items) == (if items[0].Plain? then [items[0].arg] + Plains(items[1..]) else Plains(items[1..]))
    ensures Values(items) == (if items[0].Plain? then Values(items[1..]) else [items[0].value] + Values(items[1..]))
  {
    assert [] + Plains(items[1..]) == Plains(items[1..]) && [] + Values(items[1..]) == Values(items[1..]);
  }

  lemma PlainIff(arg: string, name: string)
    ensures IsPlain(arg, name) <==> arg != name && TrimOption(arg, name).None?
  {
    if TrimOption(arg, name).Some? {
      TrimOptionIff(arg, name, TrimOption(arg, name).value);
    }
    forall value | arg == name + "=" + value ensures TrimOption(arg, name).Some? {
      TrimOptionIff(arg, name, value);
    }
  }

  lemma LongFormIsNotName(name: string, value: string)
    ensures name + "=" + value != name && TrimOption(name + "=" + value, name) == Some(value)
  {
    TrimOptionIff(name + "=" + value, name, value);
    assert |name + "=" + value| > |name|;
  }

  /** Every sequence of arguments is a command line, except that the last
      `--name` may lack its value. */
  lemma {:induction false} EveryLine(name: string, args: seq<string>) returns (items: seq<Item>, dangling: bool)
    ensures WellFormed(name, items)
    ensures args == Line(name, items) + Dangling(name, dangling)
    decreases |args|
  {
    if args == [] {
      items, dangling := [], false;
    } else if args[0] == name && |args| == 1 {
      items, dangling := [], true;
    } else {
      PlainIff(args[0], name);
      var item, n := Plain(args[0]), 1;
      if args[0] == name {
        item, n := Spaced(args[1]), 2;
      } else if TrimOption(args[0], name).Some? {
        item := Equals(TrimOption(args[0], name).value);
        TrimOptionIff(args[0], name, item.value);
      }
      var more;
      more, dangling := EveryLine(name, args[n..]);
      items := [item] + more;
      assert args == args[..n] + args[n..] && args[..n] == ArgsOf(name, item);
    }
  }
}
