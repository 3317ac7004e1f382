/** Command line parsing.  The loop accepts exactly the concatenations of well-formed options and
    stores their values as a left-to-right fold in which later values win. */
module CliParser {
  import opened ConfigValues

  datatype Opt = Opt(category: string, name: string, shorts: string, isFlag: bool, flat: bool)

  /** What is known about the options: the list, the conversion of an argument to the type of an
      option, and the conversion of a value to a dictionary. */
  datatype Env = Env(
    opts: seq<Opt>,
    sync: (Opt, string) -> Converted,
    toDict: CV -> Option<map<string, CV>>)

  datatype Converted = Val(x: CV) | Bad(code: nat)

  datatype Pec = Success | NotAnOption | MissingArgument | ConversionFailed(code: nat)

  type Config = map<string, CV>

  // -- strings -----------------------------------------------------------------------------------------

  function IndexOf(s: string, c: char): (r: Option<nat>)
    ensures r.Some? ==> r.value < |s| && s[r.value] == c && c !in s[..r.value]
    ensures r.None? ==> c !in s
  {
    if s == [] then None
    else if s[0] == c then Some(0)
    else
      match IndexOf(s[1..], c)
      case None => None
      case Some(i) => assert s[..i + 1] == [s[0]] + s[1..][..i]; Some(i + 1)
  }

  function LastIndexOf(s: string, c: char): (r: Option<nat>)
    ensures r.Some? ==> r.value < |s| && s[r.value] == c && c !in s[r.value + 1..]
    ensures r.None? ==> c !in s
  {
    if s == [] then None
    else if s[|s| - 1] == c then Some(|s| - 1)
    else
      var n := |s| - 1;
      match LastIndexOf(s[..n], c)
      case None => None
      case Some(i) => assert s[i + 1..] == s[..n][i + 1..] + [s[n]]; Some(i)
  }

  function Split(s: string): (r: seq<string>)
    ensures r != []
    decreases |s|
  {
    match IndexOf(s, '.')
    case None => [s]
    case Some(i) => [s[..i]] + Split(s[i + 1..])
  }

  // -- looking up options --------------------------------------------------------------------------------

  predicate LongMatch(o: Opt, name: string) {
    match LastIndexOf(name, '.')
    case None => o.flat && o.name == name
    case Some(i) => o.category == name[..i] && o.name == name[i + 1..]
  }

  function LongLookup(opts: seq<Opt>, name: string): Option<Opt> {
    if opts == [] then None else if LongMatch(opts[0], name) then Some(opts[0]) else LongLookup(opts[1..], name)
  }

  function ShortLookup(opts: seq<Opt>, c: char): Option<Opt> {
    if opts == [] then None else if c in opts[0].shorts then Some(opts[0]) else ShortLookup(opts[1..], c)
  }

  /** What an option is called: its name if it is flat, or its name after its category. */
  predicate Named(o: Opt, name: string) {
    (o.flat && name == o.name && '.' !in name) || (name == o.category + "." + o.name && '.' !in o.name)
  }

  lemma LongMatchMeaning(o: Opt, name: string)
    ensures LongMatch(o, name) <==> Named(o, name)
  {
    match LastIndexOf(name, '.')
    case None => assert '.' in o.category + "." + o.name;
    case Some(i) =>
      assert name == name[..i] + "." + name[i + 1..];
      if name == o.category + "." + o.name && '.' !in o.name {
        var k := |o.category|;
        assert name[k] == '.' && name[k + 1..] == o.name && name[..k] == o.category;
        assert i == k;
      }
  }

  /** The option at `i` is the first one with this name. */
  predicate FirstNamed(opts: seq<Opt>, i: nat, name: string)
    requires i < |opts|
  {
    Named(opts[i], name) && forall j :: 0 <= j < i ==> !Named(opts[j], name)
  }

  predicate FirstShort(opts: seq<Opt>, i: nat, c: char)
    requires i < |opts|
  {
    c in opts[i].shorts && forall j :: 0 <= j < i ==> c !in opts[j].shorts
  }

  /** Long names find the first option that is called so, and nothing exactly if none is. */
  lemma {:induction false} LongLookupMeaning(opts: seq<Opt>, name: string, o: Opt)
    ensures LongLookup(opts, name) == Some(o) <==> exists i :: 0 <= i < |opts| && opts[i] == o && FirstNamed(opts, i, name)
    ensures LongLookup(opts, name) == None <==> forall i :: 0 <= i < |opts| ==> !Named(opts[i], name)
    decreases |opts|
  {
    if opts != [] {
      LongMatchMeaning(opts[0], name);
      hide LongMatch, Named;
      var rest := opts[1..];
      LongLookupMeaning(rest, name, o);
      assert opts == [opts[0]] + rest;
      if Named(opts[0], name) {
        assert FirstNamed(opts, 0, name);
      } else {
        forall i | 0 <= i < |rest|
          ensures FirstNamed(rest, i, name) <==> FirstNamed(opts, i + 1, name)
        {
        }
      }
    }
  }

  /** And short names the first option that lists the character. */
  lemma {:induction false} ShortLookupMeaning(opts: seq<Opt>, c: char, o: Opt)
    ensures ShortLookup(opts, c) == Some(o) <==> exists i :: 0 <= i < |opts| && opts[i] == o && FirstShort(opts, i, c)
    ensures ShortLookup(opts, c) == None <==> forall i :: 0 <= i < |opts| ==> c !in opts[i].shorts
    decreases |opts|
  {
    if opts != [] {
      var rest := opts[1..];
      ShortLookupMeaning(rest, c, o);
      assert opts == [opts[0]] + rest;
      if c in opts[0].shorts {
        assert FirstShort(opts, 0, c);
      } else {
        forall i | 0 <= i < |rest|
          ensures FirstShort(rest, i, c) <==> FirstShort(opts, i + 1, c)
        {
        }
      }
    }
  }

  // -- settings ------------------------------------------------------------------------------------------

  /** The dictionary under a key; anything else there is converted or replaced. */
  function AsDict(env: Env, c: Config, key: string): Config {
    if key !in c then map[]
    else if c[key].CDict? then c[key].d
    else match env.toDict(c[key]) case Some(d) => d case None => map[]
  }

  function Assign(env: Env, c: Config, ps: seq<string>, name: string, x: CV): Config
    decreases |ps|
  {
    if ps == [] then c[name := x] else c[ps[0] := CDict(Assign(env, AsDict(env, c, ps[0]), ps[1..], name, x))]
  }

  /** Selecting an entry without assigning to it. */
  function Touch(env: Env, c: Config, ps: seq<string>): Config
    decreases |ps|
  {
    if ps == [] then c else c[ps[0] := CDict(Touch(env, AsDict(env, c, ps[0]), ps[1..]))]
  }

  function Category(o: Opt): seq<string> {
    if o.category == "global" then [] else Split(o.category)
  }

  function PathOf(o: Opt): (p: seq<string>)
    ensures p != []
  {
    Category(o) + [o.name]
  }

  function Joined(parts: seq<string>): string
    requires parts != []
  {
    if |parts| == 1 then parts[0] else parts[0] + "." + Joined(parts[1..])
  }

  /** Splitting gives the one way to write a string as parts without dots with dots in between. */
  lemma {:induction false} SplitMeaning(s: string, parts: seq<string>)
    requires parts != []
    ensures Split(s) == parts <==> Joined(parts) == s && forall i :: 0 <= i < |parts| ==> '.' !in parts[i]
    decreases |s|
  {
    var r := IndexOf(s, '.');
    if r.None? {
      if |parts| > 1 {
        assert Joined(parts)[|parts[0]|] == '.';
      }
    } else {
      var i := r.value;
      assert s == s[..i] + "." + s[i + 1..];
      var rest := if |parts| > 1 then parts[1..] else [""];
      SplitMeaning(s[i + 1..], rest);
      if |parts| > 1 {
        assert parts == [parts[0]] + rest;
        FirstPart(s, i, parts);
      } else {
        assert Split(s)[1..] == Split(s[i + 1..]);
      }
    }
  }

  lemma FirstPart(s: string, i: nat, parts: seq<string>)
    requires i < |s| && s[i] == '.' && '.' !in s[..i] && |parts| > 1
    ensures Joined(parts) == s && '.' !in parts[0] <==> parts[0] == s[..i] && Joined(parts[1..]) == s[i + 1..]
  {
    var k, t := |parts[0]|, Joined(parts);
    assert t[k] == '.' && t[..k] == parts[0] && t[k + 1..] == Joined(parts[1..]);
    if t == s && '.' !in parts[0] {
      assert k == i;
    }
    assert s == s[..i] + "." + s[i + 1..];
  }

  /** An option outside of the global category is stored where its full name says. */
  lemma PathIsName(o: Opt)
    ensures o.category == "global" ==> PathOf(o) == [o.name]
    ensures o.category != "global" ==> Joined(PathOf(o)) == o.category + "." + o.name
    ensures forall i :: 0 <= i < |PathOf(o)| - 1 ==> '.' !in PathOf(o)[i]
  {
    if o.category != "global" {
      SplitMeaning(o.category, Split(o.category));
      JoinedAppend(Split(o.category), o.name);
    }
  }

  lemma {:induction false} JoinedAppend(parts: seq<string>, name: string)
    requires parts != []
    ensures Joined(parts + [name]) == Joined(parts) + "." + name
    decreases |parts|
  {
    if |parts| > 1 {
      JoinedAppend(parts[1..], name);
      assert (parts + [name])[1..] == parts[1..] + [name];
      assert parts[0] + "." + (Joined(parts[1..]) + "." + name) == parts[0] + "." + Joined(parts[1..]) + "." + name;
    } else {
      assert (parts + [name])[1..] == [name];
    }
  }

  // -- parsing -----------------------------------------------------------------------------------------------

  datatype Outcome = Found(opt: Opt, text: string, used: nat) | Halt(code: Pec, at: nat) | Terminator

  /** What the next tokens are. */
  function Next(env: Env, args: seq<string>): (r: Outcome)
    requires args != []
    ensures r.Found? ==> 0 < r.used <= |args|
  {
    var tok := args[0];
    if |tok| < 2 then Halt(NotAnOption, 0)
    else if tok == "--" then Terminator
    else if tok[..2] == "--" then
      var eq := IndexOf(tok, '=');
      var o := LongLookup(env.opts, if eq.Some? && eq.value >= 2 then tok[2..eq.value] else tok[2..]);
      if o.None? then Halt(NotAnOption, 0)
      else if eq.Some? then Found(o.value, tok[eq.value + 1..], 1)
      else Valueless(o.value, args)
    else if tok[0] == '-' then
      var o := ShortLookup(env.opts, tok[1]);
      if o.None? then Halt(NotAnOption, 0)
      else if |tok| == 2 then Valueless(o.value, args)
      else Found(o.value, tok[2..], 1)
    else Halt(NotAnOption, 0)
  }

  /** Flags stand for "true", other options take the next token. */
  function Valueless(o: Opt, args: seq<string>): Outcome
    requires args != []
  {
    if o.isFlag then Found(o, "true", 1)
    else if |args| == 1 then Halt(MissingArgument, 1)
    else Found(o, args[1], 2)
  }

  function Consume(env: Env, c: Config, o: Opt, text: string): (Config, Pec) {
    if text == "" then (Touch(env, c, Category(o)), MissingArgument)
    else
      match env.sync(o, text)
      case Val(x) => (Assign(env, c, Category(o), o.name, x), Success)
      case Bad(code) => (Touch(env, c, Category(o)), ConversionFailed(code))
  }

  datatype Stop = AtEnd | Failed(code: Pec, at: nat) | Dashes(at: nat)

  datatype Result = Result(config: Config, stop: Stop)

  function Shifted(n: nat, s: Stop): Stop {
    match s
    case AtEnd => AtEnd
    case Failed(code, at) => Failed(code, at + n)
    case Dashes(at) => Dashes(at + n)
  }

  function Parsed(env: Env, c: Config, args: seq<string>): Result
    decreases |args|
  {
    if args == [] then Result(c, AtEnd)
    else
      match Next(env, args)
      case Halt(code, at) => Result(c, Failed(code, at))
      case Terminator => Result(c, Dashes(0))
      case Found(o, text, used) =>
        var (c1, code) := Consume(env, c, o, text);
        if code != Success then Result(c1, Failed(code, 0))
        else
          var r := Parsed(env, c1, args[used..]);
          Result(r.config, Shifted(used, r.stop))
  }

  /** The code and the iterator that the caller sees.  For "--" the source computes the iterator
      from the first argument and not from the current one. */
  function Reported(args: seq<string>, s: Stop): (Pec, nat) {
    match s
    case AtEnd => (Success, |args|)
    case Failed(code, at) => (code, at)
    case Dashes(_) => (Success, 1)
  }

  method Parse(env: Env, config: Config, args: seq<string>) returns (c: Config, code: Pec, at: nat)
    ensures c == Parsed(env, config, args).config
    ensures (code, at) == Reported(args, Parsed(env, config, args).stop)
  {
    hide Next, Consume;
    c := config;
    var i := 0;
    while i < |args|
      invariant i <= |args|
      invariant Parsed(env, config, args).config == Parsed(env, c, args[i..]).config
      invariant Parsed(env, config, args).stop == Shifted(i, Parsed(env, c, args[i..]).stop)
    {
      match Next(env, args[i..])
      case Halt(code, at) => return c, code, i + at;
      case Terminator => return c, Success, 1;
      case Found(o, text, used) =>
        var result := Consume(env, c, o, text);
        c := result.0;
        if result.1 != Success {
          return c, result.1, i;
        }
        assert args[i..][used..] == args[i + used..];
        ShiftTwice(i, used, Parsed(env, c, args[i + used..]).stop);
        i := i + used;
    }
    return c, Success, |args|;
  }

  lemma ShiftTwice(i: nat, n: nat, s: Stop)
    ensures Shifted(i, Shifted(n, s)) == Shifted(i + n, s)
  {
  }

  // -- the language of command lines -----------------------------------------------------------------------

  datatype Item =
    | LongAssign(name: string, text: string)   // --name=text
    | LongFlag(name: string)                   // --name
    | LongPair(name: string, text: string)     // --name text
    | ShortFlag(c: char)                       // -c
    | ShortPair(c: char, text: string)         // -c text
    | ShortJoined(c: char, text: string)       // -ctext

  function Tokens(item: Item): (r: seq<string>)
    ensures r != []
  {
    match item
    case LongAssign(name, text) => ["--" + name + "=" + text]
    case LongFlag(name) => ["--" + name]
    case LongPair(name, text) => ["--" + name, text]
    case ShortFlag(c) => [['-', c]]
    case ShortPair(c, text) => [['-', c], text]
    case ShortJoined(c, text) => [['-', c] + text]
  }

  function OptOf(env: Env, item: Item): Option<Opt> {
    if item.ShortFlag? || item.ShortPair? || item.ShortJoined? then ShortLookup(env.opts, item.c)
    else LongLookup(env.opts, item.name)
  }

  function TextOf(item: Item): string {
    if item.LongFlag? || item.ShortFlag? then "true" else item.text
  }

  /** The shape alone: which options may be written in which way. */
  predicate WellFormed(env: Env, item: Item) {
    && OptOf(env, item).Some?
    && match item
       case LongAssign(name, _) => '=' !in name
       case LongFlag(name) => name != "" && '=' !in name && OptOf(env, item).value.isFlag
       case LongPair(name, _) => name != "" && '=' !in name && !OptOf(env, item).value.isFlag
       case ShortFlag(c) => c != '-' && OptOf(env, item).value.isFlag
       case ShortPair(c, _) => c != '-' && !OptOf(env, item).value.isFlag
       case ShortJoined(c, text) => c != '-' && text != ""
  }

  /** Well-formed and with an argument that converts to the type of the option. */
  predicate Valid(env: Env, item: Item) {
    WellFormed(env, item) && TextOf(item) != "" && env.sync(OptOf(env, item).value, TextOf(item)).Val?
  }

  function Render(items: seq<Item>): seq<string> {
    if items == [] then [] else Tokens(items[0]) + Render(items[1..])
  }

  predicate AllValid(env: Env, items: seq<Item>) {
    forall i :: 0 <= i < |items| ==> Valid(env, items[i])
  }

  function ValueOf(env: Env, item: Item): CV
    requires Valid(env, item)
  {
    env.sync(OptOf(env, item).value, TextOf(item)).x
  }

  function Stored(env: Env, c: Config, item: Item): Config
    requires Valid(env, item)
  {
    Assign(env, c, Category(OptOf(env, item).value), OptOf(env, item).value.name, ValueOf(env, item))
  }

  /** The items stored from left to right. */
  function Fold(env: Env, c: Config, items: seq<Item>): Config
    requires AllValid(env, items)
    decreases |items|
  {
    if items == [] then c else Fold(env, Stored(env, c, items[0]), items[1..])
  }

  /** The inverse of `Next`: which item was read. */
  function ItemAt(env: Env, args: seq<string>): Item
    requires args != [] && Next(env, args).Found?
  {
    var tok, r := args[0], Next(env, args);
    if tok[..2] == "--" then
      var eq := IndexOf(tok, '=');
      if eq.Some? then LongAssign(if eq.value >= 2 then tok[2..eq.value] else tok[2..], tok[eq.value + 1..])
      else if r.opt.isFlag then LongFlag(tok[2..])
      else LongPair(tok[2..], r.text)
    else if |tok| > 2 then ShortJoined(tok[1], tok[2..])
    else if r.opt.isFlag then ShortFlag(tok[1])
    else ShortPair(tok[1], r.text)
  }

  /** What was found is a well-formed item, and its tokens are those that were used. */
  lemma NextReadsItem(env: Env, args: seq<string>)
    requires args != [] && Next(env, args).Found?
    ensures var r, item := Next(env, args), ItemAt(env, args);
      && WellFormed(env, item) && Tokens(item) == args[..r.used]
      && OptOf(env, item) == Some(r.opt) && TextOf(item) == r.text
  {
    assert args[..1] == [args[0]] && (|args| > 1 ==> args[..2] == [args[0], args[1]]);
    if args[0][..2] == "--" {
      LongIsItem(env, args);
    } else {
      ShortIsItem(env, args);
    }
  }

  lemma LongIsItem(env: Env, args: seq<string>)
    requires args != [] && Next(env, args).Found? && args[0][..2] == "--"
    requires args[..1] == [args[0]] && (|args| > 1 ==> args[..2] == [args[0], args[1]])
    ensures var r, item := Next(env, args), ItemAt(env, args);
      && WellFormed(env, item) && Tokens(item) == args[..r.used]
      && OptOf(env, item) == Some(r.opt) && TextOf(item) == r.text
  {
    var tok := args[0];
    LongTokens(tok);
    var eq := IndexOf(tok, '=');
    if eq.Some? {
      assert eq.value >= 2;
      assert tok[2..eq.value] == tok[..eq.value][2..];
    } else {
      assert tok != "--" && tok[2..] != "";
      assert forall c :: c in tok[2..] ==> c in tok;
    }
    hide IndexOf, LongLookup, ShortLookup;
  }

  lemma ShortIsItem(env: Env, args: seq<string>)
    requires args != [] && Next(env, args).Found? && args[0][..2] != "--"
    requires args[..1] == [args[0]] && (|args| > 1 ==> args[..2] == [args[0], args[1]])
    ensures var r, item := Next(env, args), ItemAt(env, args);
      && WellFormed(env, item) && Tokens(item) == args[..r.used]
      && OptOf(env, item) == Some(r.opt) && TextOf(item) == r.text
  {
    hide IndexOf, LongLookup, ShortLookup;
    var tok := args[0];
    assert tok == [tok[0], tok[1]] + tok[2..];
    assert |tok| == 2 ==> tok == [tok[0], tok[1]];
    assert tok[..2] == [tok[0], tok[1]];
  }

  lemma LongTokens(tok: string)
    requires |tok| >= 2 && tok[..2] == "--"
    ensures tok == "--" + tok[2..]
    ensures forall i :: 2 <= i < |tok| && tok[i] == '=' ==> tok == "--" + tok[2..i] + "=" + tok[i + 1..]
    ensures tok[0] == '-' && tok[1] == '-'
  {
    assert tok[0] == tok[..2][0] && tok[1] == tok[..2][1];
  }

  /** And every well-formed item is found. */
  lemma ItemIsRead(env: Env, item: Item, rest: seq<string>)
    requires WellFormed(env, item)
    ensures Next(env, Tokens(item) + rest) == Found(OptOf(env, item).value, TextOf(item), |Tokens(item)|)
  {
    var args := Tokens(item) + rest;
    var tok := args[0];
    match item
    case LongAssign(name, text) => LongAssignIsRead(env, name, text, tok);
    case LongFlag(name) => LongNameIsRead(name, tok);
    case LongPair(name, text) => LongNameIsRead(name, tok); assert args[1] == text;
    case ShortFlag(c) => ShortIsRead(c, "", tok);
    case ShortPair(c, text) => ShortIsRead(c, "", tok); assert args[1] == text;
    case ShortJoined(c, text) => ShortIsRead(c, text, tok);
  }

  lemma LongAssignIsRead(env: Env, name: string, text: string, tok: string)
    requires '=' !in name && tok == "--" + name + "=" + text
    ensures tok[..2] == "--" && tok != "--"
    ensures IndexOf(tok, '=') == Some(2 + |name|) && tok[2..2 + |name|] == name && tok[2 + |name| + 1..] == text
  {
    var k := 2 + |name|;
    assert tok[k] == '=';
    assert tok[..k] == "--" + name;
    var eq := IndexOf(tok, '=');
    assert eq.Some?;
    assert eq.value >= k by {
      assert '=' !in tok[..k];
    }
  }

  lemma LongNameIsRead(name: string, tok: string)
    requires name != "" && '=' !in name && tok == "--" + name
    ensures tok[..2] == "--" && tok != "--" && IndexOf(tok, '=') == None && tok[2..] == name
  {
    assert '=' !in tok;
  }

  lemma ShortIsRead(c: char, text: string, tok: string)
    requires c != '-' && tok == ['-', c] + text
    ensures tok[..2] != "--" && tok != "--" && tok[0] == '-' && tok[1] == c && tok[2..] == text
  {
    assert tok[..2][1] == c;
  }

  // -- what parsing does, for all command lines ---------------------------------------------------------------

  predicate Converts(env: Env, o: Opt, text: string) {
    text != "" && env.sync(o, text).Val?
  }

  /** The items before the place where parsing stops. */
  function Items(env: Env, args: seq<string>): seq<Item>
    decreases |args|
  {
    if args == [] then []
    else
      match Next(env, args)
      case Found(o, text, used) =>
        if Converts(env, o, text) then [ItemAt(env, args)] + Items(env, args[used..]) else []
      case _ => []
  }

  ghost predicate NothingFits(env: Env, args: seq<string>) {
    forall item :: Valid(env, item) ==> !(Tokens(item) <= args)
  }

  /** One token is left, and it begins an option that takes the next token as its argument. */
  ghost predicate LacksArgument(env: Env, rest: seq<string>) {
    exists item :: Begins(env, item, rest)
  }

  predicate Begins(env: Env, item: Item, rest: seq<string>) {
    WellFormed(env, item) && |Tokens(item)| == 2 && rest == [Tokens(item)[0]]
  }

  predicate Leads(env: Env, item: Item, rest: seq<string>) {
    WellFormed(env, item) && Tokens(item) <= rest
  }

  /** If an option was read, its entry is selected although nothing is assigned to it, which may create
      its category. */
  ghost predicate Selects(env: Env, f: Config, rest: seq<string>, g: Config) {
    && (forall item :: Leads(env, item, rest) ==> g == Touch(env, f, Category(OptOf(env, item).value)))
    && ((forall item :: !Leads(env, item, rest)) ==> g == f)
  }

  /** What the error code says about the tokens that were not consumed. */
  ghost predicate RightCode(env: Env, rest: seq<string>, code: Pec) {
    match code
    case Success => false
    case NotAnOption => !LacksArgument(env, rest) && forall item :: !Leads(env, item, rest)
    case MissingArgument =>
      LacksArgument(env, rest) || exists item :: Leads(env, item, rest) && TextOf(item) == ""
    case ConversionFailed(n) =>
      && !LacksArgument(env, rest)
      && exists item :: Leads(env, item, rest) && TextOf(item) != "" && env.sync(OptOf(env, item).value, TextOf(item)) == Bad(n)
  }

  /** `f` is the fold of the items, whose `n` tokens are consumed; `rest` is what is left. */
  ghost predicate StopsRightly(env: Env, f: Config, n: nat, rest: seq<string>, r: Result) {
    match r.stop
    case AtEnd => rest == [] && r.config == f
    case Dashes(at) => at == n && rest != [] && rest[0] == "--" && r.config == f
    case Failed(code, at) =>
      && rest != [] && RightCode(env, rest, code) && NothingFits(env, rest)
      && at == (if LacksArgument(env, rest) then n + 1 else n)
      && Selects(env, f, rest, r.config)
  }

  ghost predicate Explained(env: Env, c: Config, args: seq<string>, items: seq<Item>, r: Result) {
    && AllValid(env, items) && Render(items) <= args
    && StopsRightly(env, Fold(env, c, items), |Render(items)|, args[|Render(items)|..], r)
  }

  /** Every command line is explained: what was consumed is the longest sequence of valid items,
      each token exactly once, and the settings are their fold.  Parsing succeeds at the end iff
      all of it was consumed.  On failure the code says what is wrong with the first token that was
      not consumed, and the iterator is that token exactly if it is not an option that lacks its
      argument because it comes last; then the iterator is the end. */
  lemma {:induction false} ParseIsExplained(env: Env, c: Config, args: seq<string>)
    ensures Explained(env, c, args, Items(env, args), Parsed(env, c, args))
    decreases |args|
  {
    if args != [] {
      var next := Next(env, args);
      if next.Found? && Converts(env, next.opt, next.text) {
        FoundIsExplained(env, c, args);
      } else {
        HaltIsExplained(env, c, args);
      }
    }
  }

  lemma HaltIsExplained(env: Env, c: Config, args: seq<string>)
    requires args != [] && !(Next(env, args).Found? && Converts(env, Next(env, args).opt, Next(env, args).text))
    ensures Explained(env, c, args, Items(env, args), Parsed(env, c, args))
  {
    assert args[0..] == args;
    forall item | Valid(env, item)
      ensures !(Tokens(item) <= args)
    {
      if Tokens(item) <= args {
        PrefixIsRead(env, item, args);
        assert false;
      }
    }
    HaltCode(env, c, args);
    HaltPosition(env, args);
    HaltSelects(env, c, args);
    assert Render([]) == [] && Fold(env, c, []) == c;
    hide Next, Valid, Tokens, RightCode, LacksArgument, Selects;
  }

  lemma HaltSelects(env: Env, c: Config, args: seq<string>)
    requires args != [] && !(Next(env, args).Found? && Converts(env, Next(env, args).opt, Next(env, args).text))
    ensures Selects(env, c, args, Parsed(env, c, args).config)
  {
    forall item | Leads(env, item, args)
      ensures Next(env, args).Found? && Next(env, args).opt == OptOf(env, item).value
    {
      assert args == Tokens(item) + args[|Tokens(item)|..];
      ItemIsRead(env, item, args[|Tokens(item)|..]);
    }
    if Next(env, args).Found? {
      NextReadsItem(env, args);
      assert Leads(env, ItemAt(env, args), args);
    }
    hide Next, ItemAt, Leads, OptOf, Touch;
  }

  lemma PrefixIsRead(env: Env, item: Item, args: seq<string>)
    requires Valid(env, item) && Tokens(item) <= args
    ensures Next(env, args).Found? && Converts(env, Next(env, args).opt, Next(env, args).text)
  {
    assert args == Tokens(item) + args[|Tokens(item)|..];
    ItemIsRead(env, item, args[|Tokens(item)|..]);
  }

  /** Reading stops after a token exactly if that is the last one and lacks its argument. */
  lemma HaltPosition(env: Env, args: seq<string>)
    requires args != []
    ensures var r := Next(env, args);
      && (r.Terminator? ==> args[0] == "--")
      && (r.Halt? && r.at != 0 <==> LacksArgument(env, args))
      && (r.Halt? && r.at != 0 ==> r.at == 1 && r.code == MissingArgument)
      && (r.Halt? && r.at == 0 ==> r.code == NotAnOption)
  {
    if item :| Begins(env, item, args) {
      BeginningIsRead(env, item);
    }
    if Next(env, args).Halt? && Next(env, args).at != 0 {
      HaltLacks(env, args);
    }
    hide Begins, LongLookup, ShortLookup;
  }

  lemma HaltLacks(env: Env, args: seq<string>)
    requires args != [] && Next(env, args).Halt? && Next(env, args).at != 0
    ensures LacksArgument(env, args)
  {
    hide LongLookup, ShortLookup;
    var tok := args[0];
    if tok[..2] == "--" {
      LongTokens(tok);
      assert tok[2..] != "" && forall c :: c in tok[2..] ==> c in tok;
      assert Begins(env, LongPair(tok[2..], ""), args);
    } else {
      assert tok == [tok[0], tok[1]] && tok[..2] == tok;
      assert Begins(env, ShortPair(tok[1], ""), args);
    }
  }

  lemma BeginningIsRead(env: Env, item: Item)
    requires WellFormed(env, item) && |Tokens(item)| == 2
    ensures Next(env, [Tokens(item)[0]]) == Halt(MissingArgument, 1)
  {
    var tok := Tokens(item)[0];
    if item.LongPair? {
      LongNameIsRead(item.name, tok);
    } else {
      ShortIsRead(item.c, "", tok);
    }
  }

  /** The code when nothing valid can be read. */
  lemma HaltCode(env: Env, c: Config, args: seq<string>)
    requires args != [] && !(Next(env, args).Found? && Converts(env, Next(env, args).opt, Next(env, args).text))
    ensures var r := Parsed(env, c, args);
      && (r.stop.Failed? ==> RightCode(env, args, r.stop.code))
      && (r.stop.Failed? ==> r.stop.at == if LacksArgument(env, args) then 1 else 0)
  {
    HaltPosition(env, args);
    var next := Next(env, args);
    if next.Found? {
      NextReadsItem(env, args);
      assert Leads(env, ItemAt(env, args), args);
    } else {
      forall item
        ensures !Leads(env, item, args)
      {
        if Leads(env, item, args) {
          assert args == Tokens(item) + args[|Tokens(item)|..];
          ItemIsRead(env, item, args[|Tokens(item)|..]);
          assert false;
        }
      }
    }
    hide Next, Leads, LacksArgument, WellFormed;
  }

  /** So an option that lacks its argument at the end is not where the iterator points. */
  lemma MissingArgumentIterator(env: Env, c: Config, items: seq<Item>, tok: string)
    requires AllValid(env, items) && LacksArgument(env, [tok])
    ensures var args, n := Render(items) + [tok], |Render(items)|;
      && Parsed(env, c, args) == Result(Fold(env, c, items), Failed(MissingArgument, n + 1))
      && |args| == n + 1 && args[n] == tok
  {
    HaltPosition(env, [tok]);
    RenderedItemsParse(env, c, items, [tok]);
  }

  /** Two ways to leave out the argument of the same option, and two iterators. */
  lemma MissingArguments(env: Env, c: Config, name: string)
    requires name != "" && '=' !in name && LongLookup(env.opts, name).Some? && !LongLookup(env.opts, name).value.isFlag
    ensures Parsed(env, c, ["--" + name]).stop == Failed(MissingArgument, 1)
    ensures Parsed(env, c, ["--" + name + "="]).stop == Failed(MissingArgument, 0)
  {
    hide LongLookup, ShortLookup, IndexOf;
    BeginningIsRead(env, LongPair(name, ""));
    var item := LongAssign(name, "");
    assert "--" + name + "=" + "" == "--" + name + "=";
    ItemIsRead(env, item, []);
    assert Tokens(item) + [] == ["--" + name + "="];
    hide Next;
  }

  lemma {:induction false} FoundIsExplained(env: Env, c: Config, args: seq<string>)
    requires args != [] && Next(env, args).Found? && Converts(env, Next(env, args).opt, Next(env, args).text)
    ensures Explained(env, c, args, Items(env, args), Parsed(env, c, args))
    decreases |args|, 0
  {
    var next, item := Next(env, args), ItemAt(env, args);
    NextReadsItem(env, args);
    var rest, c1 := args[next.used..], Stored(env, c, item);
    assert Consume(env, c, next.opt, next.text) == (c1, Success);
    ParseIsExplained(env, c1, rest);
    var items := Items(env, rest);
    assert Items(env, args) == [item] + items;
    hide Next, ItemAt, Items, Tokens, Valid, WellFormed, Consume, Stored, Converts, OptOf, TextOf;
    PrependExplained(env, c, args, item, items, Parsed(env, c1, rest));
  }

  lemma PrependExplained(env: Env, c: Config, args: seq<string>, item: Item, items: seq<Item>, r: Result)
    requires Valid(env, item) && Tokens(item) <= args
    requires Explained(env, Stored(env, c, item), args[|Tokens(item)|..], items, r)
    ensures Explained(env, c, args, [item] + items, Result(r.config, Shifted(|Tokens(item)|, r.stop)))
  {
    hide Valid, Tokens, Stored, Render, Fold, AllValid, StopsRightly;
    var k, n := |Tokens(item)|, |Render(items)|;
    PrefixSplit(Tokens(item), Render(items), args);
    PrependItem(env, c, item, items);
    ShiftStop(env, Fold(env, Stored(env, c, item), items), n, k, args[k + n..], r);
  }

  lemma PrefixSplit(a: seq<string>, b: seq<string>, args: seq<string>)
    requires a <= args && b <= args[|a|..]
    ensures a + b <= args && args[|a|..][|b|..] == args[|a| + |b|..]
  {
    assert args == args[..|a|] + args[|a|..];
  }

  lemma ShiftStop(env: Env, f: Config, n: nat, k: nat, rest: seq<string>, r: Result)
    ensures StopsRightly(env, f, n, rest, r) ==> StopsRightly(env, f, k + n, rest, Result(r.config, Shifted(k, r.stop)))
  {
    hide NothingFits, Selects, RightCode, LacksArgument;
  }

  lemma PrependItem(env: Env, c: Config, item: Item, items: seq<Item>)
    requires Valid(env, item) && AllValid(env, items)
    ensures AllValid(env, [item] + items) && Render([item] + items) == Tokens(item) + Render(items)
    ensures Fold(env, c, [item] + items) == Fold(env, Stored(env, c, item), items)
  {
    var all := [item] + items;
    assert all[1..] == items && all[0] == item;
  }

  /** Conversely, every sequence of valid items is parsed to its end. */
  lemma {:induction false} RenderedItemsParse(env: Env, c: Config, items: seq<Item>, rest: seq<string>)
    requires AllValid(env, items)
    ensures var r := Parsed(env, Fold(env, c, items), rest);
      Parsed(env, c, Render(items) + rest) == Result(r.config, Shifted(|Render(items)|, r.stop))
    decreases |items|
  {
    hide Valid, Tokens, Stored, Parsed;
    if items == [] {
      assert Render(items) + rest == rest;
    } else {
      var item, tail := items[0], Render(items[1..]) + rest;
      assert Render(items) + rest == Tokens(item) + tail;
      assert Fold(env, c, items) == Fold(env, Stored(env, c, item), items[1..]);
      hide Fold;
      ParseStep(env, c, item, tail);
      RenderedItemsParse(env, Stored(env, c, item), items[1..], rest);
      ShiftTwice(|Tokens(item)|, |Render(items[1..])|, Parsed(env, Fold(env, c, items), rest).stop);
    }
  }

  lemma ParseStep(env: Env, c: Config, item: Item, tail: seq<string>)
    requires Valid(env, item)
    ensures var r := Parsed(env, Stored(env, c, item), tail);
      Parsed(env, c, Tokens(item) + tail) == Result(r.config, Shifted(|Tokens(item)|, r.stop))
  {
    ItemIsRead(env, item, tail);
    assert Consume(env, c, OptOf(env, item).value, TextOf(item)) == (Stored(env, c, item), Success);
    hide Next, Valid, Tokens, Consume, Stored, OptOf, TextOf, Shifted;
    assert (Tokens(item) + tail)[|Tokens(item)|..] == tail;
  }

  /** Parsing succeeds at the end exactly on the rendered sequences of valid items. */
  lemma AcceptedLanguage(env: Env, c: Config, args: seq<string>)
    ensures Parsed(env, c, args).stop == AtEnd <==> exists items :: AllValid(env, items) && Render(items) == args
  {
    ParseIsExplained(env, c, args);
    if Parsed(env, c, args).stop == AtEnd {
      assert Render(Items(env, args)) == args;
    }
    if items :| AllValid(env, items) && Render(items) == args {
      RenderedItemsParse(env, c, items, []);
      assert Render(items) + [] == args;
    }
  }

  /** At the terminator the iterator is the second argument; that is the one after the terminator
      exactly if no option came before it. */
  lemma TerminatorIterator(env: Env, c: Config, items: seq<Item>, rest: seq<string>)
    requires AllValid(env, items)
    ensures var args := Render(items) + (["--"] + rest);
      var r, n := Parsed(env, c, args), |Render(items)|;
      && r == Result(Fold(env, c, items), Dashes(n))
      && Reported(args, r.stop) == (Success, 1)
      && (Reported(args, r.stop).1 == n + 1 <==> items == [])
  {
    RenderedItemsParse(env, c, items, ["--"] + rest);
    assert (["--"] + rest)[0] == "--";
    assert Parsed(env, Fold(env, c, items), ["--"] + rest) == Result(Fold(env, c, items), Dashes(0));
  }

  // -- later values win ---------------------------------------------------------------------------------------

  function Lookup(c: Config, p: seq<string>): Option<CV>
    requires p != []
    decreases |p|
  {
    if p[0] !in c then None
    else if |p| == 1 then Some(c[p[0]])
    else if c[p[0]].CDict? then Lookup(c[p[0]].d, p[1..])
    else None
  }

  /** No value other than a dictionary is in the way of a category. */
  predicate Open(c: Config, ps: seq<string>)
    decreases |ps|
  {
    ps == [] || ps[0] !in c || (c[ps[0]].CDict? && Open(c[ps[0]].d, ps[1..]))
  }

  lemma {:induction false} LookupAssigned(env: Env, c: Config, ps: seq<string>, name: string, x: CV)
    ensures Lookup(Assign(env, c, ps, name, x), ps + [name]) == Some(x)
    decreases |ps|
  {
    if ps != [] {
      LookupAssigned(env, AsDict(env, c, ps[0]), ps[1..], name, x);
      assert (ps + [name])[1..] == ps[1..] + [name];
    }
  }

  lemma {:induction false} LookupOther(env: Env, c: Config, ps: seq<string>, name: string, x: CV, q: seq<string>)
    requires q != [] && !(q <= ps + [name]) && !(ps + [name] <= q)
    requires Lookup(c, q).Some? || Open(c, q[..|q| - 1]) || Open(c, ps)
    ensures Lookup(Assign(env, c, ps, name, x), q) == Lookup(c, q)
    decreases |ps|
  {
    if ps == [] {
      assert [name] <= q <==> q[0] == name;
    } else if q[0] == ps[0] {
      var p := ps + [name];
      assert p[1..] == ps[1..] + [name];
      assert |q| > 1 by {
        assert q == [q[0]] ==> q <= p;
      }
      assert !(q[1..] <= p[1..]) && !(p[1..] <= q[1..]) by {
        PrefixStep(q, p);
        PrefixStep(p, q);
      }
      assert q[..|q| - 1][1..] == q[1..][..|q| - 2];
      LookupOther(env, AsDict(env, c, ps[0]), ps[1..], name, x, q[1..]);
    }
  }

  lemma PrefixStep(a: seq<string>, b: seq<string>)
    requires a != [] && b != [] && a[0] == b[0]
    ensures a <= b <==> a[1..] <= b[1..]
  {
    if a[1..] <= b[1..] {
      assert a == [a[0]] + a[1..] && b == [b[0]] + b[1..];
    }
  }

  lemma {:induction false} StaysOpen(env: Env, c: Config, ps: seq<string>, name: string, x: CV, qs: seq<string>)
    requires Open(c, qs) && !(ps + [name] <= qs)
    ensures Open(Assign(env, c, ps, name, x), qs)
    decreases |ps|
  {
    if qs != [] {
      if ps == [] {
        assert [name] <= qs <==> qs[0] == name;
      } else if qs[0] == ps[0] {
        assert (ps + [name])[1..] == ps[1..] + [name];
        PrefixStep(ps + [name], qs);
        StaysOpen(env, AsDict(env, c, ps[0]), ps[1..], name, x, qs[1..]);
      }
    }
  }

  /** The value of the last item that sets the option, if any. */
  function LastValue(env: Env, items: seq<Item>, p: seq<string>): Option<CV>
    requires AllValid(env, items)
    decreases |items|
  {
    if items == [] then None
    else
      match LastValue(env, items[1..], p)
      case Some(x) => Some(x)
      case None => if PathOf(OptOf(env, items[0]).value) == p then Some(ValueOf(env, items[0])) else None
  }

  predicate Comparable(p: seq<string>, q: seq<string>) {
    p <= q || q <= p
  }

  /** Where an item stores its value. */
  function PathAt(env: Env, item: Item): (p: seq<string>)
    requires Valid(env, item)
    ensures p != []
  {
    PathOf(OptOf(env, item).value)
  }

  /** The item sets the option itself or nothing inside or around it. */
  predicate Apart(env: Env, item: Item, q: seq<string>)
    requires Valid(env, item)
  {
    Comparable(PathAt(env, item), q) ==> PathAt(env, item) == q
  }

  /** Storing one item that is apart: its option has the value, another one is as before. */
  lemma StoredMeaning(env: Env, c: Config, item: Item, q: seq<string>)
    requires Valid(env, item) && q != [] && Apart(env, item, q)
    ensures PathAt(env, item) == q ==> Lookup(Stored(env, c, item), q) == Some(ValueOf(env, item))
    ensures PathAt(env, item) != q && (Lookup(c, q).Some? || Open(c, q[..|q| - 1])) ==>
      Lookup(Stored(env, c, item), q) == Lookup(c, q)
    ensures Open(c, q[..|q| - 1]) ==> Open(Stored(env, c, item), q[..|q| - 1])
  {
    var a, x := OptOf(env, item).value, ValueOf(env, item);
    LookupAssigned(env, c, Category(a), a.name, x);
    if PathOf(a) != q && (Lookup(c, q).Some? || Open(c, q[..|q| - 1])) {
      LookupOther(env, c, Category(a), a.name, x, q);
    }
    if Open(c, q[..|q| - 1]) {
      assert PathOf(a) <= q[..|q| - 1] ==> PathOf(a) <= q && PathOf(a) != q;
      StaysOpen(env, c, Category(a), a.name, x, q[..|q| - 1]);
    }
  }

  /** If no argument sets anything inside or around an option, it ends up with the value of the last
      argument that sets it; without one it keeps its value, and stays unset unless a value is in the
      way of its category. */
  lemma {:induction false} LaterWins(env: Env, c: Config, items: seq<Item>, q: seq<string>)
    requires AllValid(env, items) && q != [] && forall j :: 0 <= j < |items| ==> Apart(env, items[j], q)
    ensures var last := LastValue(env, items, q);
      last.Some? || Lookup(c, q).Some? || Open(c, q[..|q| - 1]) ==>
        Lookup(Fold(env, c, items), q) == match last case Some(x) => Some(x) case None => Lookup(c, q)
    decreases |items|
  {
    if items != [] {
      hide Valid, OptOf, ValueOf, Stored, Open, Apart;
      StoredMeaning(env, c, items[0], q);
      LaterWins(env, Stored(env, c, items[0]), items[1..], q);
    }
  }

  /** The two settings look the same along a path, up to its end or to the first value in the way. */
  predicate SameAlong(c: Config, d: Config, q: seq<string>)
    requires q != []
    decreases |q|
  {
    && (q[0] in c <==> q[0] in d)
    && (q[0] in c ==>
         || c[q[0]] == d[q[0]]
         || (|q| > 1 && c[q[0]].CDict? && d[q[0]].CDict? && SameAlong(c[q[0]].d, d[q[0]].d, q[1..])))
  }

  lemma {:induction false} SameLookup(c: Config, d: Config, q: seq<string>)
    requires q != [] && SameAlong(c, d, q)
    ensures Lookup(c, q) == Lookup(d, q)
    decreases |q|
  {
    if q[0] in c && c[q[0]] != d[q[0]] {
      SameLookup(c[q[0]].d, d[q[0]].d, q[1..]);
    }
  }

  lemma SameIsSame(c: Config, q: seq<string>)
    requires q != []
    ensures SameAlong(c, c, q)
  {
  }

  /** Seen from another path, setting an option is no more than selecting its category. */
  lemma {:induction false} AssignAlong(env: Env, c: Config, d: Config, ps: seq<string>, name: string, x: CV, q: seq<string>)
    requires q != [] && SameAlong(c, d, q) && !Comparable(ps + [name], q)
    ensures SameAlong(Assign(env, c, ps, name, x), Touch(env, d, ps), q)
    decreases |ps|
  {
    var p := ps + [name];
    if ps == [] {
      assert p <= q <==> q[0] == name;
    } else if q[0] == ps[0] {
      assert |q| > 1 by {
        assert q == [q[0]] ==> q <= p;
      }
      assert p[1..] == ps[1..] + [name];
      PrefixStep(q, p);
      PrefixStep(p, q);
      var c1, d1 := AsDict(env, c, ps[0]), AsDict(env, d, ps[0]);
      assert SameAlong(c1, d1, q[1..]) by {
        SameIsSame(c1, q[1..]);
      }
      AssignAlong(env, c1, d1, ps[1..], name, x, q[1..]);
    }
  }

  /** The settings after selecting the categories of all items. */
  function TouchAll(env: Env, c: Config, items: seq<Item>): Config
    requires AllValid(env, items)
    decreases |items|
  {
    if items == [] then c
    else TouchAll(env, Touch(env, c, Category(OptOf(env, items[0]).value)), items[1..])
  }

  lemma {:induction false} FoldAlong(env: Env, c: Config, d: Config, items: seq<Item>, q: seq<string>)
    requires AllValid(env, items) && q != [] && SameAlong(c, d, q)
    requires forall j :: 0 <= j < |items| ==> !Comparable(PathAt(env, items[j]), q)
    ensures SameAlong(Fold(env, c, items), TouchAll(env, d, items), q)
    decreases |items|
  {
    hide SameAlong, Assign, Touch;
    if items != [] {
      var a := OptOf(env, items[0]).value;
      AssignAlong(env, c, d, Category(a), a.name, ValueOf(env, items[0]), q);
      FoldAlong(env, Stored(env, c, items[0]), Touch(env, d, Category(a)), items[1..], q);
    }
  }

  /** At a path that no argument sets, nor anything inside or around it, parsing leaves what selecting
      the categories of the arguments leaves there, whatever their values are. */
  lemma UnsetSeesCategories(env: Env, c: Config, items: seq<Item>, q: seq<string>)
    requires AllValid(env, items) && q != []
    requires forall j :: 0 <= j < |items| ==> !Comparable(PathAt(env, items[j]), q)
    ensures Lookup(Fold(env, c, items), q) == Lookup(TouchAll(env, c, items), q)
  {
    SameIsSame(c, q);
    FoldAlong(env, c, c, items, q);
    SameLookup(Fold(env, c, items), TouchAll(env, c, items), q);
  }

  /** What a category holds: the entries of the dictionaries on the way, what other values convert to,
      and nothing where there is neither. */
  function Inside(env: Env, c: Config, ps: seq<string>): Config
    decreases |ps|
  {
    if ps == [] then c
    else if ps[0] !in c then map[]
    else
      match c[ps[0]]
      case CDict(d) => Inside(env, d, ps[1..])
      case x => match env.toDict(x) case Some(d) => Inside(env, d, ps[1..]) case None => map[]
  }

  lemma {:induction false} NothingInside(env: Env, ps: seq<string>)
    ensures Inside(env, map[], ps) == map[]
  {
  }

  /** Exactly what is at another path after setting an option: where the two paths part, the category
      holds what it held before, after conversion of the values on the way. */
  lemma {:induction false} OtherPath(env: Env, c: Config, ps: seq<string>, name: string, x: CV, k: nat, q: seq<string>)
    requires k <= |ps| && k < |q| && q[..k] == ps[..k] && q[k] != (ps + [name])[k]
    ensures Lookup(Assign(env, c, ps, name, x), q) == Lookup(Inside(env, c, q[..k]), q[k..])
    decreases |ps|
  {
    LookupStep(Assign(env, c, ps, name, x), q);
    if k == 0 {
      assert q[0..] == q;
      LookupStep(c, q);
    } else {
      var d := AsDict(env, c, ps[0]);
      assert q[0] == q[..k][0] == ps[..k][0] == ps[0];
      assert q[1..][..k - 1] == q[..k][1..] == ps[..k][1..] == ps[1..][..k - 1];
      assert (ps + [name])[1..] == ps[1..] + [name];
      OtherPath(env, d, ps[1..], name, x, k - 1, q[1..]);
      assert q[1..][k - 1..] == q[k..];
      NothingInside(env, q[..k][1..]);
    }
  }

  // -- when exactly a value stays ------------------------------------------------------------------------------

  /** What is at a path inside a value. */
  function Within(x: CV, q: seq<string>): Option<CV> {
    if q == [] then Some(x) else if x.CDict? then Lookup(x.d, q) else None
  }

  lemma LookupStep(c: Config, q: seq<string>)
    requires q != []
    ensures Lookup(c, q) == if q[0] in c then Within(c[q[0]], q[1..]) else None
  {
  }

  lemma {:induction false} LookupVia(c: Config, q: seq<string>, r: seq<string>)
    requires q != [] && r != []
    ensures Lookup(c, q + r) == match Lookup(c, q) case None => None case Some(x) => Within(x, r)
    decreases |q|
  {
    LookupStep(c, q + r);
    LookupStep(c, q);
    assert (q + r)[1..] == q[1..] + r;
    if |q| > 1 {
      if q[0] in c && c[q[0]].CDict? {
        LookupVia(c[q[0]].d, q[1..], r);
      }
    } else {
      assert q[1..] + r == r;
    }
  }

  /** What is inside an option comes from its new value. */
  lemma LookupInside(env: Env, c: Config, ps: seq<string>, name: string, x: CV, q: seq<string>)
    requires ps + [name] <= q
    ensures Lookup(Assign(env, c, ps, name, x), q) == Within(x, q[|ps| + 1..])
  {
    var p := ps + [name];
    LookupAssigned(env, c, ps, name, x);
    if p != q {
      LookupVia(Assign(env, c, ps, name, x), p, q[|p|..]);
      assert p + q[|p|..] == q;
    }
  }

  /** The entry of a category is a dictionary afterwards, and it is as before exactly if the new
      value was there already. */
  lemma {:induction false} LookupCategory(env: Env, c: Config, ps: seq<string>, name: string, x: CV, q: seq<string>)
    requires q != [] && q <= ps
    ensures var t := Assign(env, c, ps, name, x);
      && Lookup(t, q).Some? && Lookup(t, q).value.CDict?
      && (Lookup(t, q) == Lookup(c, q) <==> Lookup(c, ps + [name]) == Some(x))
  {
    var p, t := ps + [name], Assign(env, c, ps, name, x);
    CategoryIsDict(env, c, ps, name, x, q);
    LookupAssigned(env, c, ps, name, x);
    LookupVia(t, q, p[|q|..]);
    LookupVia(c, q, p[|q|..]);
    assert q + p[|q|..] == p;
    if Lookup(c, p) == Some(x) {
      AssignAgain(env, c, ps, name, x);
    }
  }

  lemma {:induction false} CategoryIsDict(env: Env, c: Config, ps: seq<string>, name: string, x: CV, q: seq<string>)
    requires q != [] && q <= ps
    ensures Lookup(Assign(env, c, ps, name, x), q).Some? && Lookup(Assign(env, c, ps, name, x), q).value.CDict?
    decreases |ps|
  {
    LookupStep(Assign(env, c, ps, name, x), q);
    if |q| > 1 {
      PrefixStep(q, ps);
      CategoryIsDict(env, AsDict(env, c, ps[0]), ps[1..], name, x, q[1..]);
    }
  }

  lemma {:induction false} AssignAgain(env: Env, c: Config, ps: seq<string>, name: string, x: CV)
    requires Lookup(c, ps + [name]) == Some(x)
    ensures Assign(env, c, ps, name, x) == c
    decreases |ps|
  {
    if ps != [] {
      assert (ps + [name])[1..] == ps[1..] + [name];
      AssignAgain(env, c[ps[0]].d, ps[1..], name, x);
    }
  }

  /** Setting `p` to `y` agrees with the value `x` at `q`: if `q` is `p` or inside of it, `y` has `x`
      there, and if `p` is inside of `q`, `x` has `y` there. */
  predicate Agrees(q: seq<string>, x: CV, p: seq<string>, y: CV) {
    && (p <= q ==> Within(y, q[|p|..]) == Some(x))
    && (q <= p && q != p ==> Within(x, p[|q|..]) == Some(y))
  }

  /** An item keeps the value of any path exactly if it agrees with it, whatever else is set. */
  lemma StoredKeepsIff(env: Env, c: Config, item: Item, q: seq<string>, x: CV)
    requires Valid(env, item) && q != [] && Lookup(c, q) == Some(x)
    ensures Lookup(Stored(env, c, item), q) == Some(x) <==> Agrees(q, x, PathAt(env, item), ValueOf(env, item))
  {
    var a, y := OptOf(env, item).value, ValueOf(env, item);
    var ps, p := Category(a), PathOf(a);
    if p <= q {
      LookupInside(env, c, ps, a.name, y, q);
    } else if q <= p {
      assert q <= ps;
      LookupCategory(env, c, ps, a.name, y, q);
      LookupVia(c, q, p[|q|..]);
      assert q + p[|q|..] == p;
    } else {
      LookupOther(env, c, ps, a.name, y, q);
    }
  }

  lemma {:induction false} FoldAppend(env: Env, c: Config, items: seq<Item>, item: Item)
    requires AllValid(env, items) && Valid(env, item)
    ensures AllValid(env, items + [item])
    ensures Fold(env, c, items + [item]) == Stored(env, Fold(env, c, items), item)
    decreases |items|
  {
    var all := items + [item];
    if items == [] {
      assert all[1..] == [] && all[0] == item;
    } else {
      assert all[1..] == items[1..] + [item] && all[0] == items[0];
      FoldAppend(env, Stored(env, c, items[0]), items[1..], item);
    }
  }

  /** The settings after the first `j` items. */
  function After(env: Env, c: Config, items: seq<Item>, j: nat): Config
    requires AllValid(env, items) && j <= |items|
  {
    Fold(env, c, items[..j])
  }

  lemma AfterNext(env: Env, c: Config, items: seq<Item>, j: nat)
    requires AllValid(env, items) && j < |items|
    ensures After(env, c, items, j + 1) == Stored(env, After(env, c, items, j), items[j])
  {
    assert items[..j + 1] == items[..j] + [items[j]];
    FoldAppend(env, c, items[..j], items[j]);
  }

  predicate AgreesAt(env: Env, items: seq<Item>, j: nat, q: seq<string>, x: CV)
    requires AllValid(env, items) && j < |items|
  {
    Agrees(q, x, PathAt(env, items[j]), ValueOf(env, items[j]))
  }

  /** A value that is at a path at some point stays there up to any later point exactly if all
      arguments in between agree with it. */
  lemma {:induction false} PresentStaysIff(env: Env, c: Config, items: seq<Item>, m: nat, n: nat, q: seq<string>, x: CV)
    requires AllValid(env, items) && m <= n <= |items| && q != [] && Lookup(After(env, c, items, m), q) == Some(x)
    ensures (forall j :: m <= j <= n ==> Lookup(After(env, c, items, j), q) == Some(x))
       <==> (forall j :: m <= j < n ==> AgreesAt(env, items, j, q, x))
    decreases n
  {
    hide After, Agrees, ValueOf, PathAt, Lookup, Valid, Stored;
    if m < n {
      PresentStaysIff(env, c, items, m, n - 1, q, x);
      AfterNext(env, c, items, n - 1);
      if Lookup(After(env, c, items, n - 1), q) == Some(x) {
        StoredKeepsIff(env, After(env, c, items, n - 1), items[n - 1], q, x);
        assert Lookup(After(env, c, items, n), q) == Some(x) <==> AgreesAt(env, items, n - 1, q, x);
      }
    }
  }

  /** For any options and settings: an option that argument `k` sets has that value right after it,
      and keeps it up to any later point exactly if all arguments in between agree with it. */
  lemma ValueStaysIff(env: Env, c: Config, items: seq<Item>, k: nat, n: nat)
    requires AllValid(env, items) && k < n <= |items|
    ensures var q, x := PathAt(env, items[k]), ValueOf(env, items[k]);
      && Lookup(After(env, c, items, k + 1), q) == Some(x)
      && ((forall j :: k < j <= n ==> Lookup(After(env, c, items, j), q) == Some(x))
           <==> (forall j :: k < j < n ==> AgreesAt(env, items, j, q, x)))
  {
    var before, a, x := After(env, c, items, k), OptOf(env, items[k]).value, ValueOf(env, items[k]);
    AfterNext(env, c, items, k);
    LookupAssigned(env, before, Category(a), a.name, x);
    hide After, Agrees, ValueOf, Lookup, Valid, AgreesAt, OptOf;
    PresentStaysIff(env, c, items, k + 1, n, PathAt(env, items[k]), x);
  }

  /** A command line that loses a value: an option gets one that is no dictionary, and then something
      inside of that option is set. */
  lemma CategoryTakesValue(env: Env, c: Config, i: Item, j: Item)
    requires Valid(env, i) && Valid(env, j) && !ValueOf(env, i).CDict?
    requires PathAt(env, i) <= Category(OptOf(env, j).value)
    ensures var r := Parsed(env, c, Render([i, j]));
      && r.stop == AtEnd
      && Lookup(r.config, PathAt(env, i)).Some? && Lookup(r.config, PathAt(env, i)) != Some(ValueOf(env, i))
  {
    var items, o := [i, j], OptOf(env, j).value;
    RenderedItemsParse(env, c, items, []);
    assert Render(items) + [] == Render(items);
    FoldAppend(env, c, [], i);
    FoldAppend(env, c, [i], j);
    assert [] + [i] == [i] && [i] + [j] == items;
    LookupCategory(env, Stored(env, c, i), Category(o), o.name, ValueOf(env, j), PathAt(env, i));
  }

  const OPT_A := Opt("global", "a", "", false, true)
  const OPT_B := Opt("a", "b", "", false, true)
  const SET_A := LongAssign("a", "1")
  const SET_B := LongAssign("a.b", "2")

  /** For instance: the first of these arguments sets `a`, and the second one takes its value away. */
  lemma CategoryTakesOne(env: Env, c: Config)
    requires env.opts == [OPT_A, OPT_B] && env.sync(OPT_B, "2").Val?
    requires env.sync(OPT_A, "1").Val? && !env.sync(OPT_A, "1").x.CDict?
    ensures var r := Parsed(env, c, ["--a=1", "--a.b=2"]);
      r.stop == AtEnd && Lookup(r.config, ["a"]) != Some(env.sync(OPT_A, "1").x)
  {
    SettersAreValid(env);
    SetterTokens();
    RenderTwo(SET_A, SET_B);
    hide Parsed, Render, Valid, ValueOf, PathAt, Category, Tokens, OptOf, Lookup;
    CategoryTakesValue(env, c, SET_A, SET_B);
  }

  lemma SettersAreValid(env: Env)
    requires env.opts == [OPT_A, OPT_B] && env.sync(OPT_A, "1").Val? && env.sync(OPT_B, "2").Val?
    ensures Valid(env, SET_A) && ValueOf(env, SET_A) == env.sync(OPT_A, "1").x && PathAt(env, SET_A) == ["a"]
    ensures Valid(env, SET_B) && OptOf(env, SET_B) == Some(OPT_B) && Category(OPT_B) == ["a"]
  {
    NamesAreFound(OPT_A, OPT_B);
    assert IndexOf("a", '.') == None;
    hide LongLookup;
  }

  lemma SetterTokens()
    ensures Tokens(SET_A) == ["--a=1"] && Tokens(SET_B) == ["--a.b=2"]
  {
    assert "--" + "a" + "=" + "1" == "--a=1";
    assert "--" + "a.b" + "=" + "2" == "--a.b=2";
  }

  lemma RenderTwo(i: Item, j: Item)
    ensures Render([i, j]) == Tokens(i) + Tokens(j)
  {
    assert [i, j][1..] == [j] && [j][1..] == [] && Render([]) == [];
    assert Render([j]) == Tokens(j);
  }

  lemma NamesAreFound(a: Opt, b: Opt)
    requires a == Opt("global", "a", "", false, true) && b == Opt("a", "b", "", false, true)
    ensures LongLookup([a, b], "a") == Some(a) && LongLookup([a, b], "a.b") == Some(b)
  {
    var name := "a.b";
    assert LastIndexOf("a", '.') == None;
    assert LastIndexOf(name, '.') == Some(1) by {
      assert name[1] == '.' && '.' !in name[2..];
    }
    assert name[..1] == "a" && name[2..] == "b";
    hide LastIndexOf;
    assert [a, b][1..] == [b];
  }
}
