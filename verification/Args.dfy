/**
 The argument loop of cmd/mockryx/main.go, parseArgsAnyOrder, over the parser of Go's flag package,
 which stops at the first argument that is not a flag.
 */
module Args {
  import opened Options

  /** The flags a command defines: whether each is boolean, and which values it can be set to. */
  datatype Flags = Flags(isBool: map<string, bool>, accepts: (string, string) -> bool)

  /** A flag and the value it was set to. The flag state is the settings in order. */
  datatype Setting = Setting(name: string, value: string)

  datatype Error = BadSyntax(arg: string) | Help | Undefined(name: string) | NeedsValue(name: string) | Rejected(s: Setting)

  // ---- flag.FlagSet.Parse -----------------------------------------------------------------------

  datatype One = Stop(rest: seq<string>) | Bad(error: Error) | Took(s: Setting, rest: seq<string>)

  /** An argument the flag parser reads as a flag, or as the end of flags. */
  predicate FlagLike(arg: string) {
    |arg| >= 2 && arg[0] == '-'
  }

  function Equals(name: string, i: nat): (r: nat)
    requires i <= |name|
    ensures i <= r <= |name|
    ensures forall k :: i <= k < r ==> name[k] != '='
    ensures r < |name| ==> name[r] == '='
    decreases |name| - i
  {
    if i < |name| && name[i] != '=' then Equals(name, i + 1) else i
  }

  function Set(fs: Flags, name: string, value: string, rest: seq<string>): One {
    if fs.accepts(name, value) then Took(Setting(name, value), rest) else Bad(Rejected(Setting(name, value)))
  }

  /** parseOne: one flag, or the end of them. */
  function ParseOne(fs: Flags, args: seq<string>): (r: One)
    ensures r.Took? ==> |r.rest| < |args|
    ensures r.Stop? ==> |r.rest| <= |args|
  {
    if args == [] || !FlagLike(args[0]) then Stop(args)
    else if args[0] == "--" then Stop(args[1..])
    else
      var text := args[0][if args[0][1] == '-' then 2 else 1..];
      if text == "" || text[0] == '-' || text[0] == '=' then Bad(BadSyntax(args[0]))
      else
        var e, rest := Equals(text, 1), args[1..];
        var name := text[..e];
        if name !in fs.isBool then Bad(if name == "help" || name == "h" then Help else Undefined(name))
        else if e < |text| then Set(fs, name, text[e + 1..], rest)
        else if fs.isBool[name] then Set(fs, name, "true", rest)
        else if rest == [] then Bad(NeedsValue(name))
        else Set(fs, name, rest[0], rest[1..])
  }

  datatype Parsed = Failed(error: Error) | Parsed(settings: seq<Setting>, rest: seq<string>)

  /** Parse: flags until something that is not one. */
  function Parse(fs: Flags, args: seq<string>): (r: Parsed)
    ensures r.Parsed? ==> |r.rest| <= |args|
    decreases |args|
  {
    match ParseOne(fs, args)
    case Stop(rest) => Parsed([], rest)
    case Bad(error) => Failed(error)
    case Took(s, rest) =>
      match Parse(fs, rest)
      case Failed(error) => Failed(error)
      case Parsed(settings, left) => Parsed([s] + settings, left)
  }

  // ---- one pass over the arguments --------------------------------------------------------------

  datatype Outcome = Refused(error: Error) | Done(settings: seq<Setting>, positionals: seq<string>)

  function Prefixed(settings: seq<Setting>, positionals: seq<string>, o: Outcome): Outcome {
    if o.Refused? then o else Done(settings + o.settings, positionals + o.positionals)
  }

  /** The arguments read once, left to right: a flag with its value, or a positional. */
  function OnePass(fs: Flags, args: seq<string>): Outcome
    decreases |args|
  {
    match ParseOne(fs, args)
    case Bad(error) => Refused(error)
    case Took(s, rest) => Prefixed([s], [], OnePass(fs, rest))
    case Stop(rest) => if rest == [] then Done([], []) else Prefixed([], [rest[0]], OnePass(fs, rest[1..]))
  }

  lemma PrefixedTwice(a: seq<Setting>, p: seq<string>, b: seq<Setting>, q: seq<string>, o: Outcome)
    ensures Prefixed(a, p, Prefixed(b, q, o)) == Prefixed(a + b, p + q, o)
  {
    if o.Done? {
      assert a + (b + o.settings) == (a + b) + o.settings;
      assert p + (q + o.positionals) == (p + q) + o.positionals;
    }
  }

  /** One call of Parse is the flags of the pass, up to its next positional. */
  lemma {:induction false} ParseInPass(fs: Flags, args: seq<string>)
    ensures OnePass(fs, args) == match Parse(fs, args)
      case Failed(error) => Refused(error)
      case Parsed(settings, rest) =>
        Prefixed(settings, [], if rest == [] then Done([], []) else Prefixed([], [rest[0]], OnePass(fs, rest[1..])))
    decreases |args|
  {
    var one := ParseOne(fs, args);
    match one
    case Bad(_) =>
    case Stop(rest) =>
      var o := if rest == [] then Done([], []) else Prefixed([], [rest[0]], OnePass(fs, rest[1..]));
      assert Prefixed([], [], o) == o;
    case Took(s, rest) =>
      ParseInPass(fs, rest);
      var p := Parse(fs, rest);
      if p.Parsed? {
        var o := if p.rest == [] then Done([], []) else Prefixed([], [p.rest[0]], OnePass(fs, p.rest[1..]));
        PrefixedTwice([s], [], p.settings, [], o);
        var none: seq<string> := [];
        assert none + none == none;
      }
  }

  /** The function parseArgsAnyOrder. */
  method ParseArgsAnyOrder(fs: Flags, arguments: seq<string>) returns (o: Outcome)
    ensures o == OnePass(fs, arguments)
  {
    var args, positionals, settings := arguments, [], [];
    assert Prefixed(settings, positionals, OnePass(fs, args)) == OnePass(fs, arguments);
    while true
      invariant Prefixed(settings, positionals, OnePass(fs, args)) == OnePass(fs, arguments)
      decreases |args|
    {
      ParseInPass(fs, args);
      var p := Parse(fs, args);
      if p.Failed? {
        return Refused(p.error);
      }
      var rest := p.rest;
      var next := if rest == [] then Done([], []) else Prefixed([], [rest[0]], OnePass(fs, rest[1..]));
      PrefixedTwice(settings, positionals, p.settings, [], next);
      settings := settings + p.settings;
      assert positionals + [] == positionals;
      if |rest| == 0 {
        return Done(settings, positionals);
      }
      PrefixedTwice(settings, positionals, [], [rest[0]], OnePass(fs, rest[1..]));
      assert settings + [] == settings;
      positionals := positionals + [rest[0]];
      args := rest[1..];
    }
  }

  // ---- what a person writes ---------------------------------------------------------------------

  /** A name a flag can be given by. */
  predicate NameFits(name: string) {
    name != "" && name[0] != '-' && '=' !in name
  }

  /** The word a flag is written as: one dash or two, its name, and perhaps a value joined to it. */
  datatype Word = Word(double: bool, name: string, value: Option<string>)

  function Spelt(w: Word): string {
    (if w.double then "--" else "-") + (w.name + if w.value.Some? then "=" + w.value.value else "")
  }

  predicate IsWord(arg: string, w: Word) {
    NameFits(w.name) && arg == Spelt(w)
  }

  datatype Form = Joined | Separate | Bare

  /**
   What a person writes: a flag with its value in one of the forms, a positional, or anything at all
   shielded by a double dash.
   */
  datatype Item = Flag(double: bool, form: Form, s: Setting) | Positional(arg: string) | Shielded(arg: string)

  /** An argument that does not begin with a dash, or is nothing but one. */
  predicate Plain(arg: string) {
    arg == "" || arg == "-" || arg[0] != '-'
  }

  predicate ValidItem(fs: Flags, item: Item) {
    match item
    case Positional(arg) => Plain(arg)
    case Shielded(_) => true
    case Flag(_, form, s) =>
      && NameFits(s.name) && s.name in fs.isBool && fs.accepts(s.name, s.value)
      && (form.Separate? ==> !fs.isBool[s.name])
      && (form.Bare? ==> fs.isBool[s.name] && s.value == "true")
  }

  function WordOf(item: Item): Word
    requires item.Flag?
  {
    Word(item.double, item.s.name, if item.form.Joined? then Some(item.s.value) else None)
  }

  function ItemArgs(item: Item): seq<string> {
    match item
    case Positional(arg) => [arg]
    case Shielded(arg) => ["--", arg]
    case Flag(_, form, s) => [Spelt(WordOf(item))] + if form.Separate? then [s.value] else []
  }

  function Written(items: seq<Item>): seq<string> {
    if items == [] then [] else ItemArgs(items[0]) + Written(items[1..])
  }

  function Settings(items: seq<Item>): seq<Setting> {
    if items == [] then []
    else (if items[0].Flag? then [items[0].s] else []) + Settings(items[1..])
  }

  function Positionals(items: seq<Item>): seq<string> {
    if items == [] then []
    else (if items[0].Flag? then [] else [items[0].arg]) + Positionals(items[1..])
  }

  predicate ValidItems(fs: Flags, items: seq<Item>) {
    forall n :: 0 <= n < |items| ==> ValidItem(fs, items[n])
  }

  lemma EqualsAt(text: string, name: string)
    requires NameFits(name) && name <= text && (text == name || text[|name|] == '=')
    ensures Equals(text, 1) == |name|
  {
    assert forall k :: 0 <= k < |name| ==> text[k] == name[k] && name[k] != '=';
  }

  /** The word of a flag is read as far as its name. */
  lemma WordIsRead(arg: string, w: Word)
    requires IsWord(arg, w)
    ensures FlagLike(arg) && arg != "--"
    ensures var text := arg[if arg[1] == '-' then 2 else 1..];
      && text != "" && text[0] != '-' && text[0] != '=' && text[..Equals(text, 1)] == w.name
      && (if w.value.Some? then Equals(text, 1) < |text| && text[Equals(text, 1) + 1..] == w.value.value
          else Equals(text, 1) == |text|)
  {
    var text := w.name + if w.value.Some? then "=" + w.value.value else "";
    assert arg[if w.double then 2 else 1..] == text && (arg[1] == '-' <==> w.double);
    assert text[..|w.name|] == w.name;
    EqualsAt(text, w.name);
    assert w.value.Some? ==> text[|w.name|] == '=' && text[|w.name| + 1..] == w.value.value;
  }

  /** A value that is joined to the word of a flag, or goes without saying, or is the next argument. */
  predicate Gives(fs: Flags, w: Word, form: Form, value: string, args: seq<string>, rest: seq<string>)
    requires args != [] && w.name in fs.isBool
  {
    match form
    case Joined => w.value == Some(value) && rest == args[1..]
    case Separate => w.value.None? && !fs.isBool[w.name] && |args| > 1 && value == args[1] && rest == args[2..]
    case Bare => w.value.None? && fs.isBool[w.name] && value == "true" && rest == args[1..]
  }

  lemma WordIsTaken(fs: Flags, w: Word, form: Form, value: string, args: seq<string>, rest: seq<string>)
    requires args != [] && IsWord(args[0], w) && w.name in fs.isBool && fs.accepts(w.name, value)
    requires Gives(fs, w, form, value, args, rest)
    ensures ParseOne(fs, args) == Took(Setting(w.name, value), rest)
  {
    WordIsRead(args[0], w);
    assert |args| > 1 ==> args[1..][1..] == args[2..];
  }

  lemma FlagIsTaken(fs: Flags, item: Item, rest: seq<string>)
    requires item.Flag? && ValidItem(fs, item)
    ensures ParseOne(fs, ItemArgs(item) + rest) == Took(item.s, rest)
  {
    var args := ItemArgs(item) + rest;
    assert args[|ItemArgs(item)|..] == rest;
    WordIsTaken(fs, WordOf(item), item.form, item.s.value, args, rest);
  }

  lemma StopsAtItem(fs: Flags, item: Item, left: seq<string>)
    requires !item.Flag? && ValidItem(fs, item)
    ensures ParseOne(fs, ItemArgs(item) + left) == Stop([item.arg] + left) && ([item.arg] + left)[1..] == left
  {
    var args := ItemArgs(item) + left;
    if item.Shielded? {
      assert args[1..] == [item.arg] + left;
    }
  }

  /** One item, and whatever follows it. */
  lemma ItemThenRest(fs: Flags, item: Item, left: seq<string>)
    requires ValidItem(fs, item)
    ensures OnePass(fs, ItemArgs(item) + left)
         == if item.Flag? then Prefixed([item.s], [], OnePass(fs, left)) else Prefixed([], [item.arg], OnePass(fs, left))
  {
    if item.Flag? {
      FlagIsTaken(fs, item, left);
    } else {
      StopsAtItem(fs, item, left);
    }
  }

  lemma Unwritten(items: seq<Item>, rest: seq<string>)
    requires items != []
    ensures Written(items) + rest == ItemArgs(items[0]) + (Written(items[1..]) + rest)
    ensures Settings(items) == (if items[0].Flag? then [items[0].s] else []) + Settings(items[1..])
    ensures Positionals(items) == (if items[0].Flag? then [] else [items[0].arg]) + Positionals(items[1..])
  {
  }

  /** Items in any order, and whatever follows them. */
  lemma {:induction false} ItemsThenRest(fs: Flags, items: seq<Item>, rest: seq<string>)
    requires ValidItems(fs, items)
    ensures OnePass(fs, Written(items) + rest) == Prefixed(Settings(items), Positionals(items), OnePass(fs, rest))
  {
    var o := OnePass(fs, rest);
    if items == [] {
      assert Written(items) + rest == rest && Prefixed([], [], o) == o;
    } else {
      var item, tail := items[0], items[1..];
      Unwritten(items, rest);
      ItemsThenRest(fs, tail, rest);
      ItemThenRest(fs, item, Written(tail) + rest);
      PrefixedTwice(if item.Flag? then [item.s] else [], if item.Flag? then [] else [item.arg],
                    Settings(tail), Positionals(tail), o);
    }
  }

  /** Flags and positionals may be interleaved in any way: each kind is read in its own order. */
  lemma AnyOrderIsRead(fs: Flags, items: seq<Item>)
    requires ValidItems(fs, items)
    ensures OnePass(fs, Written(items)) == Done(Settings(items), Positionals(items))
  {
    ItemsThenRest(fs, items, []);
    assert Written(items) + [] == Written(items);
    assert Settings(items) + [] == Settings(items) && Positionals(items) + [] == Positionals(items);
  }

  /** Two interleavings of the same flags and the same positionals come to the same. */
  lemma OrderDoesNotMatter(fs: Flags, a: seq<Item>, b: seq<Item>)
    requires ValidItems(fs, a) && ValidItems(fs, b)
    requires Settings(a) == Settings(b) && Positionals(a) == Positionals(b)
    ensures OnePass(fs, Written(a)) == OnePass(fs, Written(b))
  {
    AnyOrderIsRead(fs, a);
    AnyOrderIsRead(fs, b);
  }

  // ---- what is refused --------------------------------------------------------------------------

  /** Three dashes, or an equals sign where the name should begin. */
  predicate BadWord(arg: string) {
    |arg| >= 2 && arg[0] == '-' && (arg[1] == '=' || (arg[1] == '-' && |arg| >= 3 && (arg[2] == '-' || arg[2] == '=')))
  }

  /** The first of these arguments cannot be read, for this reason. */
  ghost predicate Breaks(fs: Flags, args: seq<string>, e: Error) {
    args != [] &&
    match e
    case BadSyntax(arg) => arg == args[0] && BadWord(arg)
    case _ => exists w :: IsWord(args[0], w) && WordBreaks(fs, w, args, e)
  }

  predicate WordBreaks(fs: Flags, w: Word, args: seq<string>, e: Error) {
    match e
    case BadSyntax(_) => false
    case Help => w.name !in fs.isBool && w.name in {"help", "h"}
    case Undefined(name) => w.name == name && name !in fs.isBool && name != "help" && name != "h"
    case NeedsValue(name) => w.name == name && w.value.None? && name in fs.isBool && !fs.isBool[name] && |args| == 1
    case Rejected(s) =>
      && w.name == s.name && s.name in fs.isBool && !fs.accepts(s.name, s.value)
      && match w.value
         case Some(v) => s.value == v
         case None => if fs.isBool[s.name] then s.value == "true" else |args| > 1 && args[1] == s.value
  }

  lemma BreaksIsBad(fs: Flags, args: seq<string>, e: Error)
    requires Breaks(fs, args, e)
    ensures ParseOne(fs, args) == Bad(e)
  {
    if !e.BadSyntax? {
      var w :| IsWord(args[0], w) && WordBreaks(fs, w, args, e);
      WordIsBad(fs, w, args, e);
    }
  }

  lemma WordIsBad(fs: Flags, w: Word, args: seq<string>, e: Error)
    requires args != [] && IsWord(args[0], w) && WordBreaks(fs, w, args, e)
    ensures ParseOne(fs, args) == Bad(e)
  {
    WordIsRead(args[0], w);
  }

  /** A word that begins with a dash is a flag's, unless it is badly written or a double dash. */
  lemma WordFrom(arg: string) returns (w: Word)
    requires FlagLike(arg) && arg != "--" && !BadWord(arg)
    ensures IsWord(arg, w)
  {
    var double := arg[1] == '-';
    var text := arg[if double then 2 else 1..];
    var e := Equals(text, 1);
    var name := text[..e];
    assert forall k :: 0 <= k < e ==> name[k] == text[k];
    w := Word(double, name, if e < |text| then Some(text[e + 1..]) else None);
    assert text == name + if e < |text| then "=" + text[e + 1..] else "";
  }

  /** What ParseOne makes of arguments: it takes a flag, stops at a positional or a double dash, or breaks. */
  lemma OneItem(fs: Flags, args: seq<string>) returns (item: Item)
    requires args != [] && args != ["--"]
    ensures match ParseOne(fs, args)
      case Bad(e) => Breaks(fs, args, e)
      case Took(s, rest) => ValidItem(fs, item) && args == ItemArgs(item) + rest
      case Stop(rest) => rest != [] && ValidItem(fs, item) && args == ItemArgs(item) + rest[1..]
  {
    item := Positional(args[0]);
    if args[0] == "--" {
      item := Shielded(args[1]);
      assert args == ["--", args[1]] + args[1..][1..];
    } else if FlagLike(args[0]) && !BadWord(args[0]) {
      var w := WordFrom(args[0]);
      item := WordItem(fs, w, args);
    } else if !FlagLike(args[0]) {
      assert args == [args[0]] + args[1..];
    }
  }

  lemma WordItem(fs: Flags, w: Word, args: seq<string>) returns (item: Item)
    requires args != [] && IsWord(args[0], w)
    ensures match ParseOne(fs, args)
      case Bad(e) => Breaks(fs, args, e)
      case Took(s, rest) => ValidItem(fs, item) && args == ItemArgs(item) + rest
      case Stop(_) => false
  {
    var form := TakesWord(fs, w, args);
    var one := ParseOne(fs, args);
    item := Flag(w.double, form, if one.Took? then one.s else Setting("", ""));
    if one.Took? {
      assert WordOf(item) == w;
      assert args == [args[0]] + args[1..];
      assert form.Separate? ==> args[1..] == [args[1]] + args[2..];
    }
  }

  /** A flag's word, read: how its value is given, and what is left. */
  lemma TakesWord(fs: Flags, w: Word, args: seq<string>) returns (form: Form)
    requires args != [] && IsWord(args[0], w)
    ensures match ParseOne(fs, args)
      case Bad(e) => WordBreaks(fs, w, args, e)
      case Took(s, rest) =>
        s.name == w.name && s.name in fs.isBool && fs.accepts(s.name, s.value) && Gives(fs, w, form, s.value, args, rest)
      case Stop(_) => false
  {
    WordIsRead(args[0], w);
    form := if w.value.Some? then Joined else if w.name in fs.isBool && fs.isBool[w.name] then Bare else Separate;
    assert |args| > 1 ==> args[1..][1..] == args[2..];
  }

  /** These arguments are these items, in order, with or without a double dash after the last. */
  ghost predicate Spells(fs: Flags, items: seq<Item>, args: seq<string>) {
    ValidItems(fs, items) && (args == Written(items) || args == Written(items) + ["--"])
  }

  /** These arguments are these items, and then something that cannot be read, for this reason. */
  ghost predicate SpellsTo(fs: Flags, items: seq<Item>, args: seq<string>, e: Error) {
    ValidItems(fs, items) && Written(items) <= args && Breaks(fs, args[|Written(items)|..], e)
  }

  lemma MoreItems(fs: Flags, item: Item, items: seq<Item>, left: seq<string>)
    requires ValidItem(fs, item)
    ensures Spells(fs, items, left) ==> Spells(fs, [item] + items, ItemArgs(item) + left)
    ensures forall e :: SpellsTo(fs, items, left, e) ==> SpellsTo(fs, [item] + items, ItemArgs(item) + left, e)
  {
    var more, args := [item] + items, ItemArgs(item) + left;
    assert more[1..] == items && Written(more) == ItemArgs(item) + Written(items);
    assert ItemArgs(item) + (Written(items) + ["--"]) == Written(more) + ["--"];
    if ValidItems(fs, items) && Written(items) <= left {
      assert args[|Written(more)|..] == left[|Written(items)|..];
    }
  }

  /** Any arguments whatever are items up to where they end or cannot be read. */
  lemma {:induction false} Itemized(fs: Flags, args: seq<string>) returns (items: seq<Item>)
    ensures match OnePass(fs, args)
      case Done(_, _) => Spells(fs, items, args)
      case Refused(e) => SpellsTo(fs, items, args, e)
    decreases |args|
  {
    items := [];
    if args != [] && args != ["--"] {
      var item := OneItem(fs, args);
      var one := ParseOne(fs, args);
      if one.Bad? {
        assert args[0..] == args;
      } else {
        var left := if one.Took? then one.rest else one.rest[1..];
        assert args == ItemArgs(item) + left && |left| < |args|;
        items := Itemized(fs, left);
        MoreItems(fs, item, items, left);
        items := [item] + items;
      }
    } else if args == ["--"] {
      assert args[1..] == [] && Written(items) + ["--"] == args;
    }
  }

  lemma SpelledIsRead(fs: Flags, items: seq<Item>, args: seq<string>)
    requires Spells(fs, items, args)
    ensures OnePass(fs, args) == Done(Settings(items), Positionals(items))
  {
    var rest := if args == Written(items) then [] else ["--"];
    assert args == Written(items) + rest && ["--"][1..] == [];
    ItemsThenRest(fs, items, rest);
    assert Settings(items) + [] == Settings(items) && Positionals(items) + [] == Positionals(items);
  }

  /**
   Arguments are read, with these settings and positionals, exactly when they are items with these
   settings and positionals: nothing written is lost, and nothing is made up.
   */
  lemma DoneIffItems(fs: Flags, args: seq<string>, settings: seq<Setting>, positionals: seq<string>)
    ensures OnePass(fs, args) == Done(settings, positionals) <==>
      exists items :: Spells(fs, items, args) && Settings(items) == settings && Positionals(items) == positionals
  {
    if OnePass(fs, args) == Done(settings, positionals) {
      var items := Itemized(fs, args);
      SpelledIsRead(fs, items, args);
    }
    forall items | Spells(fs, items, args) ensures OnePass(fs, args) == Done(Settings(items), Positionals(items)) {
      SpelledIsRead(fs, items, args);
    }
  }

  /** They are refused, with this error, exactly when after some items comes what breaks for that reason. */
  lemma RefusedIffBreaks(fs: Flags, args: seq<string>, e: Error)
    ensures OnePass(fs, args) == Refused(e) <==> exists items :: SpellsTo(fs, items, args, e)
  {
    if OnePass(fs, args) == Refused(e) {
      var items := Itemized(fs, args);
    }
    forall items | SpellsTo(fs, items, args, e) ensures OnePass(fs, args) == Refused(e) {
      var rest := args[|Written(items)|..];
      assert args == Written(items) + rest;
      BreaksIsBad(fs, rest, e);
      ItemsThenRest(fs, items, rest);
    }
  }

  // ---- the double dash --------------------------------------------------------------------------

  /** What is read as positionals is no more than what was written, and all of it only if none is flag-like. */
  lemma {:induction false} PositionalsAreFew(fs: Flags, args: seq<string>)
    requires OnePass(fs, args).Done?
    ensures |OnePass(fs, args).positionals| <= |args|
    ensures |OnePass(fs, args).positionals| == |args| ==> forall n :: 0 <= n < |args| ==> !FlagLike(args[n])
    decreases |args|
  {
    var one := ParseOne(fs, args);
    match one
    case Bad(_) =>
    case Took(s, rest) => PositionalsAreFew(fs, rest);
    case Stop(rest) =>
      if rest != [] {
        PositionalsAreFew(fs, rest[1..]);
        if rest == args {
          assert forall n :: 1 <= n < |args| ==> args[n] == rest[1..][n - 1];
        }
      }
  }

  lemma {:induction false} PlainArgs(fs: Flags, args: seq<string>)
    requires forall n :: 0 <= n < |args| ==> !FlagLike(args[n])
    ensures OnePass(fs, args) == Done([], args)
    decreases |args|
  {
    if args != [] {
      PlainArgs(fs, args[1..]);
      assert [args[0]] + args[1..] == args;
    }
  }

  lemma AfterDash(fs: Flags, tail: seq<string>)
    ensures OnePass(fs, ["--"] + tail) == Done([], tail) <==> forall n :: 1 <= n < |tail| ==> !FlagLike(tail[n])
  {
    var rest := ["--"] + tail;
    assert rest[1..] == tail && ParseOne(fs, rest) == Stop(tail);
    if tail != [] {
      var left := tail[1..];
      assert tail == [tail[0]] + left;
      var more := OnePass(fs, left);
      assert OnePass(fs, rest) == Prefixed([], [tail[0]], more);
      LeftAfterDash(fs, tail, left);
      assert more.Done? ==> |OnePass(fs, rest).positionals| == 1 + |more.positionals|;
    }
  }

  lemma LeftAfterDash(fs: Flags, tail: seq<string>, left: seq<string>)
    requires tail != [] && left == tail[1..]
    ensures if forall n :: 1 <= n < |tail| ==> !FlagLike(tail[n]) then OnePass(fs, left) == Done([], left)
            else OnePass(fs, left).Done? ==> |OnePass(fs, left).positionals| < |left|
  {
    assert forall n :: 0 <= n < |left| ==> left[n] == tail[n + 1];
    assert forall n :: 1 <= n < |tail| ==> tail[n] == left[n - 1];
    if forall n :: 1 <= n < |tail| ==> !FlagLike(tail[n]) {
      PlainArgs(fs, left);
    } else if OnePass(fs, left).Done? {
      PositionalsAreFew(fs, left);
    }
  }

  lemma PrefixedIs(settings: seq<Setting>, positionals: seq<string>, o: Outcome, tail: seq<string>)
    ensures Prefixed(settings, positionals, o) == Done(settings, positionals + tail) <==> o == Done([], tail)
  {
    if o.Done? {
      assert settings + [] == settings;
      assert (positionals + o.positionals)[|positionals|..] == o.positionals;
      assert (positionals + tail)[|positionals|..] == tail;
      assert |settings + o.settings| == |settings| + |o.settings|;
    }
  }

  /**
   A double dash ends the flags only as far as the next positional: what follows it is read again as
   flags. So it means what it does to other programs, that all the rest is positional, exactly when
   nothing past the first argument after it looks like a flag.
   */
  lemma DoubleDashShieldsOne(fs: Flags, items: seq<Item>, tail: seq<string>)
    requires ValidItems(fs, items)
    ensures OnePass(fs, Written(items) + (["--"] + tail)) == Done(Settings(items), Positionals(items) + tail)
       <==> forall n :: 1 <= n < |tail| ==> !FlagLike(tail[n])
  {
    ItemsThenRest(fs, items, ["--"] + tail);
    PrefixedIs(Settings(items), Positionals(items), OnePass(fs, ["--"] + tail), tail);
    AfterDash(fs, tail);
  }
}
