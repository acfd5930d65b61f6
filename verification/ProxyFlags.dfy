// The leading-flag scanner of the proxy commands (cmd/proxy.go): which tokens before the
// wrapped tool's action belong to lstk.
module ProxyFlags {
  import opened Sequences

  // The flags a proxy command recognises.
  datatype Flags = Flags(account: bool, region: bool, chdir: bool)

  predicate IsDash(arg: string) {
    arg != "" && arg[0] == '-'
  }

  // ----- The specification: the leading run as a list of items -----

  // One flag of lstk's with its value, or one token of the wrapped tool's.
  datatype Item =
    | Region(value: string, joined: bool)
    | Account(value: string, joined: bool)
    | Forwarded(token: string)
  {
    // The tokens it was written as.
    function Tokens(): seq<string> {
      match this
      case Region(v, joined) => if joined then ["--region=" + v] else ["--region", v]
      case Account(v, joined) => if joined then ["--account=" + v] else ["--account", v]
      case Forwarded(token) => [token]
    }
  }

  datatype Run = Run(items: seq<Item>, rest: seq<string>) | MissingValue(flag: string) {
    function After(before: seq<Item>): Run {
      if Run? then Run(before + items, rest) else this
    }
  }

  predicate Recognised(arg: string, opts: Flags) {
    || (opts.region && (arg == "--region" || "--region=" <= arg))
    || (opts.account && (arg == "--account" || "--account=" <= arg))
  }

  // The cases of the scanner's switch, in its order.
  datatype Class = RegionFlag | JoinedRegion | AccountFlag | JoinedAccount | ToolFlag | Bare

  function Classify(arg: string, opts: Flags): Class {
    if opts.region && arg == "--region" then RegionFlag
    else if opts.region && "--region=" <= arg then JoinedRegion
    else if opts.account && arg == "--account" then AccountFlag
    else if opts.account && "--account=" <= arg then JoinedAccount
    else if IsDash(arg) then ToolFlag
    else Bare
  }

  // How many tokens the first one of args takes with it.
  function Width(kind: Class): nat {
    if kind.RegionFlag? || kind.AccountFlag? then 2 else 1
  }

  function ItemAt(args: seq<string>, kind: Class): Item
    requires |args| >= Width(kind)
    requires kind.JoinedRegion? ==> "--region=" <= args[0]
    requires kind.JoinedAccount? ==> "--account=" <= args[0]
  {
    match kind
    case RegionFlag => Region(args[1], false)
    case JoinedRegion => Region(args[0][|"--region="|..], true)
    case AccountFlag => Account(args[1], false)
    case JoinedAccount => Account(args[0][|"--account="|..], true)
    case _ => Forwarded(args[0])
  }

  // Whether the token after a wrapped tool's flag may be its value.
  predicate MayTakeValue(arg: string, kind: Class) {
    kind.ToolFlag? && '=' !in arg
  }

  // The run ends at the first bare token that cannot be the value of a flag before it.
  function Leading(args: seq<string>, pending: bool, opts: Flags): Run
    decreases |args|
  {
    if args == [] then Run([], [])
    else
      var kind := Classify(args[0], opts);
      if kind.Bare? && !pending then Run([], args)
      else if |args| < Width(kind) then MissingValue(args[0])
      else Leading(args[Width(kind)..], MayTakeValue(args[0], kind), opts).After([ItemAt(args, kind)])
  }

  // The result of a run: what is forwarded, and the last value of each flag.
  function ForwardedTokens(items: seq<Item>): seq<string> {
    if items == [] then []
    else
      var last := items[|items| - 1];
      ForwardedTokens(items[..|items| - 1]) + if last.Forwarded? then [last.token] else []
  }

  function LastRegion(items: seq<Item>): string {
    if items == [] then ""
    else
      var last := items[|items| - 1];
      if last.Region? then last.value else LastRegion(items[..|items| - 1])
  }

  function LastAccount(items: seq<Item>): string {
    if items == [] then ""
    else
      var last := items[|items| - 1];
      if last.Account? then last.value else LastAccount(items[..|items| - 1])
  }

  // -chdir is read where it is dashed and forwarded.
  function LastChdir(items: seq<Item>, opts: Flags): string {
    if items == [] then ""
    else
      var last := items[|items| - 1];
      if opts.chdir && last.Forwarded? && "-chdir=" <= last.token then last.token[|"-chdir="|..]
      else LastChdir(items[..|items| - 1], opts)
  }

  datatype Result =
    | Stripped(remaining: seq<string>, region: string, account: string, chdir: string)
    | Error(flag: string)

  function ResultOf(run: Run, opts: Flags): Result {
    match run
    case MissingValue(flag) => Error(flag)
    case Run(items, rest) =>
      Stripped(ForwardedTokens(items) + rest, LastRegion(items), LastAccount(items), LastChdir(items, opts))
  }

  lemma ItemsSnoc(items: seq<Item>, item: Item, opts: Flags)
    ensures ForwardedTokens(items + [item]) == ForwardedTokens(items) + if item.Forwarded? then [item.token] else []
    ensures LastRegion(items + [item]) == if item.Region? then item.value else LastRegion(items)
    ensures LastAccount(items + [item]) == if item.Account? then item.value else LastAccount(items)
    ensures LastChdir(items + [item], opts) ==
      if opts.chdir && item.Forwarded? && "-chdir=" <= item.token then item.token[|"-chdir="|..]
      else LastChdir(items, opts)
  {
    assert (items + [item])[..|items|] == items;
  }

  lemma AfterTwice(run: Run, a: seq<Item>, b: seq<Item>)
    ensures run.After(b).After(a) == run.After(a + b)
  {
    if run.Run? {
      Regroup(a, b, run.items);
    }
  }

  // ----- The scanning loop -----

  // What the loop has built so far.
  datatype State = State(
    remaining: seq<string>,
    region: string,
    account: string,
    chdir: string,
    i: nat,
    pending: bool)
  {
    ghost predicate Built(items: seq<Item>, opts: Flags) {
      && remaining == ForwardedTokens(items) && chdir == LastChdir(items, opts)
      && region == LastRegion(items) && account == LastAccount(items)
    }
  }

  datatype Round = Next(s: State) | Missing(flag: string) | Action

  // What one round must achieve: the run from here on is the items it took and the run
  // after them, or the round says how the run ends.
  ghost predicate RoundOk(args: seq<string>, s: State, opts: Flags, items: seq<Item>, r: Round, items': seq<Item>)
    requires s.i < |args|
  {
    match r
    case Missing(flag) => items' == items && Leading(args[s.i..], s.pending, opts) == MissingValue(flag)
    case Action => items' == items && Leading(args[s.i..], s.pending, opts) == Run([], args[s.i..])
    case Next(t) =>
      && s.i < t.i <= |args| && t.Built(items', opts)
      && Leading(args[s.i..], s.pending, opts).After(items) == Leading(args[t.i..], t.pending, opts).After(items')
  }

  // What an item adds to what is built.
  ghost predicate Adds(s: State, t: State, item: Item, opts: Flags) {
    && t.remaining == (if item.Forwarded? then s.remaining + [item.token] else s.remaining)
    && t.region == (if item.Region? then item.value else s.region)
    && t.account == (if item.Account? then item.value else s.account)
    && t.chdir ==
       (if opts.chdir && item.Forwarded? && "-chdir=" <= item.token then item.token[|"-chdir="|..] else s.chdir)
  }

  lemma RoundTaken(args: seq<string>, s: State, opts: Flags, items: seq<Item>, t: State, kind: Class)
    requires s.i < |args| && s.Built(items, opts) && kind == Classify(args[s.i], opts)
    requires !(kind.Bare? && !s.pending) && s.i + Width(kind) <= |args|
    requires t.i == s.i + Width(kind) && t.pending == MayTakeValue(args[s.i], kind)
    requires Adds(s, t, ItemAt(args[s.i..], kind), opts)
    ensures RoundOk(args, s, opts, items, Next(t), items + [ItemAt(args[s.i..], kind)])
  {
    LeadingStep(args, s.i, s.pending, kind, items, opts);
    BuiltStep(s, t, items, ItemAt(args[s.i..], kind), opts);
  }

  // A flag whose value is the next argument.
  method TakeValue(args: seq<string>, s: State, opts: Flags, ghost items: seq<Item>)
    returns (r: Round, ghost items': seq<Item>)
    requires s.i < |args| && s.Built(items, opts)
    requires Classify(args[s.i], opts).RegionFlag? || Classify(args[s.i], opts).AccountFlag?
    ensures RoundOk(args, s, opts, items, r, items')
  {
    var arg, i := args[s.i], s.i;
    if i + 1 >= |args| {
      return Missing(arg), items;
    }
    var t := if arg == "--region" then s.(region := args[i + 1]) else s.(account := args[i + 1]);
    t := t.(i := i + 2, pending := false);
    RoundTaken(args, s, opts, items, t, Classify(arg, opts));
    return Next(t), items + [ItemAt(args[i..], Classify(arg, opts))];
  }

  // A flag with its value joined by an equals sign.
  method TakeJoined(args: seq<string>, s: State, opts: Flags, ghost items: seq<Item>)
    returns (r: Round, ghost items': seq<Item>)
    requires s.i < |args| && s.Built(items, opts)
    requires Classify(args[s.i], opts).JoinedRegion? || Classify(args[s.i], opts).JoinedAccount?
    ensures RoundOk(args, s, opts, items, r, items')
  {
    var arg, i := args[s.i], s.i;
    var t;
    if "--region=" <= arg {
      t := s.(region := arg[|"--region="|..], i := i + 1, pending := false);
    } else {
      t := s.(account := arg[|"--account="|..], i := i + 1, pending := false);
    }
    RegionIsNotAccount(arg);
    RoundTaken(args, s, opts, items, t, Classify(arg, opts));
    return Next(t), items + [ItemAt(args[i..], Classify(arg, opts))];
  }

  lemma RegionIsNotAccount(arg: string)
    ensures !("--region=" <= arg && "--account=" <= arg)
  {
    assert "--region="[2] == 'r' && "--account="[2] == 'a';
  }

  // A flag of the wrapped tool's, which may take the next token as its value.
  method TakeToolFlag(args: seq<string>, s: State, opts: Flags, ghost items: seq<Item>)
    returns (r: Round, ghost items': seq<Item>)
    requires s.i < |args| && s.Built(items, opts) && Classify(args[s.i], opts).ToolFlag?
    ensures RoundOk(args, s, opts, items, r, items')
  {
    var arg, i := args[s.i], s.i;
    var chdir := s.chdir;
    if opts.chdir && "-chdir=" <= arg {
      chdir := arg[|"-chdir="|..];
    }
    var t := s.(remaining := s.remaining + [arg], chdir := chdir, i := i + 1, pending := '=' !in arg);
    RoundTaken(args, s, opts, items, t, ToolFlag);
    return Next(t), items + [ItemAt(args[i..], ToolFlag)];
  }

  // A token without a dash: the value of the flag before it, or the action.
  method TakeBare(args: seq<string>, s: State, opts: Flags, ghost items: seq<Item>)
    returns (r: Round, ghost items': seq<Item>)
    requires s.i < |args| && s.Built(items, opts) && Classify(args[s.i], opts).Bare?
    ensures RoundOk(args, s, opts, items, r, items')
  {
    var arg, i := args[s.i], s.i;
    if !s.pending {
      return Action, items;
    }
    BareIsNoChdir(arg, opts);
    var t := s.(remaining := s.remaining + [arg], i := i + 1, pending := false);
    RoundTaken(args, s, opts, items, t, Bare);
    return Next(t), items + [ItemAt(args[i..], Bare)];
  }

  lemma BareIsNoChdir(arg: string, opts: Flags)
    requires Classify(arg, opts) == Bare
    ensures !("-chdir=" <= arg)
  {
    assert "-chdir="[0] == '-';
  }

  // One round of the loop: take a flag of lstk's, forward a token, or stop.
  method ScanOne(args: seq<string>, s: State, opts: Flags, ghost items: seq<Item>)
    returns (r: Round, ghost items': seq<Item>)
    requires s.i < |args| && s.Built(items, opts)
    ensures RoundOk(args, s, opts, items, r, items')
  {
    var arg := args[s.i];
    if opts.region && arg == "--region" {
      r, items' := TakeValue(args, s, opts, items);
    } else if opts.region && "--region=" <= arg {
      r, items' := TakeJoined(args, s, opts, items);
    } else if opts.account && arg == "--account" {
      r, items' := TakeValue(args, s, opts, items);
    } else if opts.account && "--account=" <= arg {
      r, items' := TakeJoined(args, s, opts, items);
    } else if IsDash(arg) {
      r, items' := TakeToolFlag(args, s, opts, items);
    } else {
      r, items' := TakeBare(args, s, opts, items);
    }
  }

  lemma LeadingStep(args: seq<string>, i: nat, pending: bool, kind: Class, items: seq<Item>, opts: Flags)
    requires i < |args| && kind == Classify(args[i], opts) && i + Width(kind) <= |args| && !(kind.Bare? && !pending)
    ensures Leading(args[i..], pending, opts).After(items)
         == Leading(args[i + Width(kind)..], MayTakeValue(args[i], kind), opts).After(items + [ItemAt(args[i..], kind)])
  {
    var rest := args[i..];
    assert rest[0] == args[i] && rest[Width(kind)..] == args[i + Width(kind)..];
    AfterTwice(Leading(rest[Width(kind)..], MayTakeValue(args[i], kind), opts), items, [ItemAt(rest, kind)]);
  }

  lemma BuiltStep(s: State, t: State, items: seq<Item>, item: Item, opts: Flags)
    requires s.Built(items, opts) && Adds(s, t, item, opts)
    ensures t.Built(items + [item], opts)
  {
    ItemsSnoc(items, item, opts);
    assert ForwardedTokens(items) + [] == ForwardedTokens(items);
  }

  method StripLeadingProxyFlags(args: seq<string>, opts: Flags) returns (r: Result)
    ensures r == ResultOf(Leading(args, false, opts), opts)
  {
    var s := State([], "", "", "", 0, false);
    ghost var items: seq<Item> := [];
    ghost var goal := Leading(args, false, opts);
    assert args[0..] == args;
    assert goal.Run? ==> [] + goal.items == goal.items;
    while s.i < |args|
      invariant s.i <= |args| && s.Built(items, opts)
      invariant goal == Leading(args[s.i..], s.pending, opts).After(items)
      decreases |args| - s.i
    {
      var round;
      round, items := ScanOne(args, s, opts, items);
      match round {
        case Missing(flag) =>
          return Error(flag);
        case Action =>
          assert items + [] == items;
          return Stripped(s.remaining + args[s.i..], s.region, s.account, s.chdir);
        case Next(s') =>
          s := s';
      }
    }
    assert items + [] == items && s.remaining + [] == s.remaining;
    return Stripped(s.remaining, s.region, s.account, s.chdir);
  }

  // ----- What the leading run is -----

  function Tokens(items: seq<Item>): seq<string> {
    if items == [] then [] else items[0].Tokens() + Tokens(items[1..])
  }

  lemma ItemIsWritten(args: seq<string>, opts: Flags)
    requires args != [] && |args| >= Width(Classify(args[0], opts))
    ensures ItemAt(args, Classify(args[0], opts)).Tokens() == args[..Width(Classify(args[0], opts))]
  {
    var arg, kind := args[0], Classify(args[0], opts);
    if kind.JoinedRegion? {
      assert arg == "--region=" + arg[|"--region="|..];
    } else if kind.JoinedAccount? {
      assert arg == "--account=" + arg[|"--account="|..];
    }
  }

  lemma TokensCons(item: Item, items: seq<Item>)
    ensures Tokens([item] + items) == item.Tokens() + Tokens(items)
  {
    assert ([item] + items)[1..] == items;
  }

  lemma FirstItemAndRest(args: seq<string>, kind: Class, after: Run, opts: Flags)
    requires args != [] && kind == Classify(args[0], opts) && |args| >= Width(kind)
    requires after.Run? && Tokens(after.items) + after.rest == args[Width(kind)..]
    ensures Tokens([ItemAt(args, kind)] + after.items) + after.rest == args
  {
    ItemIsWritten(args, opts);
    TokensCons(ItemAt(args, kind), after.items);
    Regroup(args[..Width(kind)], Tokens(after.items), after.rest);
    assert args == args[..Width(kind)] + args[Width(kind)..];
  }

  // The run is the arguments up to the rest: nothing is lost, added or reordered.
  lemma {:induction false} RunPartitionsArgs(args: seq<string>, pending: bool, opts: Flags)
    requires Leading(args, pending, opts).Run?
    ensures Tokens(Leading(args, pending, opts).items) + Leading(args, pending, opts).rest == args
    decreases |args|
  {
    if args == [] || (Classify(args[0], opts).Bare? && !pending) {
      assert [] + args == args;
    } else {
      var kind := Classify(args[0], opts);
      var n := Width(kind);
      var after := Leading(args[n..], MayTakeValue(args[0], kind), opts);
      RunPartitionsArgs(args[n..], MayTakeValue(args[0], kind), opts);
      FirstItemAndRest(args, kind, after, opts);
    }
  }

  ghost predicate ItemIsRight(item: Item, opts: Flags) {
    match item
    case Region(_, _) => opts.region
    case Account(_, _) => opts.account
    case Forwarded(token) => !Recognised(token, opts)
  }

  // Every flag taken is one this command recognises, no such flag is forwarded within the
  // run, and the rest starts with the action: a token without a dash.
  lemma {:induction false} RunTakesExactlyItsFlags(args: seq<string>, pending: bool, opts: Flags)
    requires Leading(args, pending, opts).Run?
    ensures forall item :: item in Leading(args, pending, opts).items ==> ItemIsRight(item, opts)
    ensures Leading(args, pending, opts).rest == [] || !IsDash(Leading(args, pending, opts).rest[0])
    decreases |args|
  {
    if args == [] {
    } else {
      var kind := Classify(args[0], opts);
      if !(kind.Bare? && !pending) {
        RunTakesExactlyItsFlags(args[Width(kind)..], MayTakeValue(args[0], kind), opts);
        assert ItemIsRight(ItemAt(args, kind), opts);
      }
    }
  }

  lemma BareIsBare(arg: string, opts: Flags)
    requires !IsDash(arg)
    ensures Classify(arg, opts) == Bare
  {
    assert IsDash("--region") && IsDash("--account");
  }

  // From the second of two consecutive tokens without a dash on, the arguments are
  // forwarded as they are, and no flag can be missing its value.
  lemma {:induction false} SecondBareTokenEndsTheRun(args: seq<string>, pending: bool, opts: Flags, k: nat)
    requires k + 1 < |args| && !IsDash(args[k]) && !IsDash(args[k + 1])
    ensures Leading(args, pending, opts).Run?
    ensures |Leading(args, pending, opts).rest| >= |args| - (k + 1)
    decreases |args|
  {
    BareIsBare(args[k], opts);
    BareIsBare(args[k + 1], opts);
    var kind := Classify(args[0], opts);
    var n := Width(kind);
    if !(kind.Bare? && !pending) {
      if k >= n {
        SecondBareTokenEndsTheRun(args[n..], MayTakeValue(args[0], kind), opts, k - n);
      } else {
        assert n == k + 1 && args[n..][0] == args[k + 1] && !MayTakeValue(args[0], kind);
        assert Leading(args[n..], false, opts) == Run([], args[n..]);
      }
    }
  }

  // The same, seen in the result: the arguments from there on close the forwarded ones.
  lemma BareTokensAreForwarded(args: seq<string>, opts: Flags, k: nat)
    requires k + 1 < |args| && !IsDash(args[k]) && !IsDash(args[k + 1])
    ensures var r := ResultOf(Leading(args, false, opts), opts);
      && r.Stripped?
      && |r.remaining| >= |args| - (k + 1)
      && r.remaining[|r.remaining| - (|args| - (k + 1))..] == args[k + 1..]
  {
    SecondBareTokenEndsTheRun(args, false, opts, k);
    RunPartitionsArgs(args, false, opts);
    var run := Leading(args, false, opts);
    SuffixOfConcat(Tokens(run.items), run.rest, |args| - (k + 1));
    SuffixOfConcat(ForwardedTokens(run.items), run.rest, |args| - (k + 1));
  }

  lemma SuffixOfConcat<T>(a: seq<T>, b: seq<T>, n: nat)
    requires n <= |b|
    ensures (a + b)[|a + b| - n..] == b[|b| - n..]
  {
  }

  // A value is missing only at the very end, after a flag that takes one.
  lemma {:induction false} MissingOnlyAtTheEnd(args: seq<string>, pending: bool, opts: Flags)
    requires Leading(args, pending, opts).MissingValue?
    ensures args != [] && args[|args| - 1] == Leading(args, pending, opts).flag
    ensures Width(Classify(args[|args| - 1], opts)) == 2
    decreases |args|
  {
    var kind := Classify(args[0], opts);
    if Width(kind) <= |args| {
      MissingOnlyAtTheEnd(args[Width(kind)..], MayTakeValue(args[0], kind), opts);
    }
  }

  // ----- There is one such run -----

  // A flag of the wrapped tool's whose value may be the next token.
  predicate AwaitsValue(item: Item) {
    item.Forwarded? && IsDash(item.token) && '=' !in item.token
  }

  predicate IsBare(item: Item) {
    item.Forwarded? && !IsDash(item.token)
  }

  // The flags are recognised ones, a token without a dash is there only as the value of the
  // flag before it, and the run goes on until the arguments end or the action comes: a
  // token without a dash that is no flag's value.
  ghost predicate Reads(items: seq<Item>, rest: seq<string>, pending: bool, opts: Flags) {
    if items == [] then rest == [] || (!IsDash(rest[0]) && !pending)
    else
      && ItemIsRight(items[0], opts) && (IsBare(items[0]) ==> pending)
      && Reads(items[1..], rest, AwaitsValue(items[0]), opts)
  }

  lemma ReadsFirst(item: Item, items: seq<Item>, rest: seq<string>, pending: bool, opts: Flags)
    ensures Reads([item] + items, rest, pending, opts) <==>
      && ItemIsRight(item, opts) && (IsBare(item) ==> pending)
      && Reads(items, rest, AwaitsValue(item), opts)
  {
    assert ([item] + items)[1..] == items;
  }

  lemma ItemIsClassified(args: seq<string>, item: Item, opts: Flags)
    requires item.Tokens() <= args && ItemIsRight(item, opts)
    ensures var kind := Classify(args[0], opts);
      && |args| >= Width(kind) && ItemAt(args, kind) == item && args[..Width(kind)] == item.Tokens()
      && (kind.Bare? <==> item.Forwarded? && !IsDash(item.token))
      && MayTakeValue(args[0], kind) == AwaitsValue(item)
  {
    var token := item.Tokens()[0];
    assert args[0] == token && args[..|item.Tokens()|] == item.Tokens();
    RegionIsNotAccount(args[0]);
    if item.Region? {
      assert token[0] == '-' && token[2] == 'r';
      if item.joined {
        assert token[|"--region="|..] == item.value;
      } else {
        assert args[1] == item.Tokens()[1];
      }
    } else if item.Account? {
      assert token[0] == '-' && token[2] == 'a';
      if item.joined {
        assert token[|"--account="|..] == item.value;
      } else {
        assert args[1] == item.Tokens()[1];
      }
    }
  }

  lemma ClassifiedIsRight(args: seq<string>, opts: Flags)
    requires args != [] && |args| >= Width(Classify(args[0], opts))
    ensures var kind := Classify(args[0], opts);
      && ItemIsRight(ItemAt(args, kind), opts)
      && MayTakeValue(args[0], kind) == AwaitsValue(ItemAt(args, kind))
      && (kind.Bare? <==> ItemAt(args, kind).Forwarded? && !IsDash(args[0]))
  {
    BareIsBare("", opts);
    if !IsDash(args[0]) {
      BareIsBare(args[0], opts);
    }
  }

  lemma {:induction false} LeadingReads(args: seq<string>, pending: bool, opts: Flags)
    requires Leading(args, pending, opts).Run?
    ensures Reads(Leading(args, pending, opts).items, Leading(args, pending, opts).rest, pending, opts)
    decreases |args|
  {
    if args == [] {
    } else {
      var kind := Classify(args[0], opts);
      if kind.Bare? && !pending {
      } else {
        var item, after := ItemAt(args, kind), Leading(args[Width(kind)..], MayTakeValue(args[0], kind), opts);
        LeadingReads(args[Width(kind)..], MayTakeValue(args[0], kind), opts);
        ClassifiedIsRight(args, opts);
        ReadsFirst(item, after.items, after.rest, pending, opts);
      }
    }
  }

  lemma {:induction false} ReadingIsLeading(items: seq<Item>, rest: seq<string>, args: seq<string>, pending: bool,
                                            opts: Flags)
    requires Tokens(items) + rest == args && Reads(items, rest, pending, opts)
    ensures Leading(args, pending, opts) == Run(items, rest)
    decreases |items|
  {
    if items == [] {
      assert args == rest;
      if rest != [] {
        BareIsBare(rest[0], opts);
      }
    } else {
      var item, later := items[0], items[1..];
      assert items == [item] + later;
      Regroup(item.Tokens(), Tokens(later), rest);
      ItemIsClassified(args, item, opts);
      assert args[|item.Tokens()|..] == Tokens(later) + rest;
      ReadingIsLeading(later, rest, args[|item.Tokens()|..], AwaitsValue(item), opts);
    }
  }

  // The run is the one way of reading the arguments as flags of lstk's and tokens of the
  // wrapped tool's up to the action.
  lemma RunIsTheOnlyReading(args: seq<string>, pending: bool, opts: Flags, items: seq<Item>, rest: seq<string>)
    ensures Leading(args, pending, opts) == Run(items, rest) <==>
      Tokens(items) + rest == args && Reads(items, rest, pending, opts)
  {
    if Leading(args, pending, opts) == Run(items, rest) {
      RunPartitionsArgs(args, pending, opts);
      LeadingReads(args, pending, opts);
    } else if Tokens(items) + rest == args && Reads(items, rest, pending, opts) {
      ReadingIsLeading(items, rest, args, pending, opts);
    }
  }

  // ----- Values and forwarded tokens -----

  // Of several regions the last one counts.
  lemma {:induction false} LastRegionCounts(items: seq<Item>, k: nat)
    requires k < |items| && items[k].Region? && forall i :: k < i < |items| ==> !items[i].Region?
    ensures LastRegion(items) == items[k].value
    decreases |items|
  {
    if k < |items| - 1 {
      LastRegionCounts(items[..|items| - 1], k);
    }
  }

  lemma {:induction false} LastAccountCounts(items: seq<Item>, k: nat)
    requires k < |items| && items[k].Account? && forall i :: k < i < |items| ==> !items[i].Account?
    ensures LastAccount(items) == items[k].value
    decreases |items|
  {
    if k < |items| - 1 {
      LastAccountCounts(items[..|items| - 1], k);
    }
  }

  predicate IsChdir(item: Item) {
    item.Forwarded? && "-chdir=" <= item.token
  }

  lemma {:induction false} LastChdirCounts(items: seq<Item>, opts: Flags, k: nat)
    requires k < |items| && IsChdir(items[k]) && forall i :: k < i < |items| ==> !IsChdir(items[i])
    ensures opts.chdir ==> "-chdir=" + LastChdir(items, opts) == items[k].token
    decreases |items|
  {
    if k < |items| - 1 {
      LastChdirCounts(items[..|items| - 1], opts, k);
    } else {
      var token := items[k].token;
      assert token == token[..|"-chdir="|] + token[|"-chdir="|..];
    }
  }

  // Without such a flag there is no value.
  lemma {:induction false} NoValueWithoutFlag(items: seq<Item>, opts: Flags)
    ensures (forall i :: 0 <= i < |items| ==> !items[i].Region?) ==> LastRegion(items) == ""
    ensures (forall i :: 0 <= i < |items| ==> !items[i].Account?) ==> LastAccount(items) == ""
    ensures !opts.chdir || (forall i :: 0 <= i < |items| ==> !IsChdir(items[i])) ==> LastChdir(items, opts) == ""
  {
    if items == [] {
    } else {
      NoValueWithoutFlag(items[..|items| - 1], opts);
    }
  }

  // The tokens of the wrapped tool's are forwarded in order, and no others.
  lemma {:induction false} ForwardedBoth(a: seq<Item>, b: seq<Item>)
    ensures ForwardedTokens(a + b) == ForwardedTokens(a) + ForwardedTokens(b)
    decreases |b|
  {
    if b == [] {
      assert a + b == a;
    } else {
      var front, last := b[..|b| - 1], b[|b| - 1];
      ForwardedBoth(a, front);
      assert (a + b)[..|a + b| - 1] == a + front;
      Regroup(ForwardedTokens(a), ForwardedTokens(front), if last.Forwarded? then [last.token] else []);
    }
  }

  lemma ForwardedOne(item: Item)
    ensures ForwardedTokens([item]) == if item.Forwarded? then item.Tokens() else []
    ensures ForwardedTokens([]) == []
  {
    assert [item][..0] == [];
  }
}
