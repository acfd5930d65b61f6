// The environment of a wrapped aws CLI (internal/awscli/exec.go). An environment is a
// slice: a length over a backing array that removal compacts in place.
module ExecEnvironment {
  import opened Sequences

  // ----- Variables -----

  // The name of an entry of the form name=value.
  function KeyOf(entry: string): Option<string> {
    if entry == "" then None
    else if entry[0] == '=' then Some("")
    else match KeyOf(entry[1..])
      case None => None
      case Some(rest) => Some([entry[0]] + rest)
  }

  lemma {:induction false} PrefixIsKey(entry: string, key: string)
    requires '=' !in key
    ensures key + "=" <= entry <==> KeyOf(entry) == Some(key)
  {
    if entry == "" {
    } else {
      if key == "" {
        assert key + "=" == "=";
      } else {
        PrefixIsKey(entry[1..], key[1..]);
        assert key == [key[0]] + key[1..] && key + "=" == [key[0]] + (key[1..] + "=");
        assert entry == [entry[0]] + entry[1..];
        if entry[0] != '=' && KeyOf(entry[1..]).Some? {
          assert KeyOf(entry).value[1..] == KeyOf(entry[1..]).value;
        }
      }
    }
  }

  // The entries of one variable.
  function EntriesOf(env: seq<string>, key: string): seq<string> {
    if env == [] then []
    else
      var last := env[|env| - 1];
      EntriesOf(env[..|env| - 1], key) + if KeyOf(last) == Some(key) then [last] else []
  }

  // The entries of all variables but those managed.
  function Others(env: seq<string>, managed: set<string>): seq<string> {
    if env == [] then []
    else
      var last := env[|env| - 1];
      Others(env[..|env| - 1], managed)
      + if KeyOf(last).Some? && KeyOf(last).value in managed then [] else [last]
  }

  function Without(env: seq<string>, key: string): seq<string> {
    Others(env, {key})
  }

  function With(env: seq<string>, key: string, value: string): seq<string> {
    Without(env, key) + [key + "=" + value]
  }

  function WithDefault(env: seq<string>, key: string, value: string): seq<string> {
    if EntriesOf(env, key) != [] then env else env + [key + "=" + value]
  }

  lemma {:induction false} EntriesOfWithout(env: seq<string>, gone: string, key: string)
    ensures EntriesOf(Without(env, gone), key) == if key == gone then [] else EntriesOf(env, key)
  {
    if env == [] {
    } else {
      var front, last := env[..|env| - 1], env[|env| - 1];
      EntriesOfWithout(front, gone, key);
      var kept := if KeyOf(last) == Some(gone) then [] else [last];
      assert Without(env, gone) == Without(front, gone) + kept;
      if kept == [] {
        assert Without(front, gone) + [] == Without(front, gone);
      } else {
        EntriesOfSnoc(Without(front, gone), last, key);
      }
    }
  }

  lemma EntriesOfSnoc(env: seq<string>, entry: string, key: string)
    ensures EntriesOf(env + [entry], key) == EntriesOf(env, key) + if KeyOf(entry) == Some(key) then [entry] else []
  {
    assert (env + [entry])[..|env|] == env;
  }

  lemma OthersSnoc(env: seq<string>, entry: string, managed: set<string>)
    ensures Others(env + [entry], managed)
         == Others(env, managed) + if KeyOf(entry).Some? && KeyOf(entry).value in managed then [] else [entry]
  {
    assert (env + [entry])[..|env|] == env;
  }

  lemma {:induction false} OthersOfWithout(env: seq<string>, gone: string, managed: set<string>)
    requires gone in managed
    ensures Others(Without(env, gone), managed) == Others(env, managed)
  {
    if env == [] {
    } else {
      var front, last := env[..|env| - 1], env[|env| - 1];
      OthersOfWithout(front, gone, managed);
      var kept := if KeyOf(last) == Some(gone) then [] else [last];
      assert Without(env, gone) == Without(front, gone) + kept;
      if kept == [] {
        assert Without(front, gone) + [] == Without(front, gone);
      } else {
        OthersSnoc(Without(front, gone), last, managed);
      }
    }
  }

  lemma KeyOfPair(key: string, value: string)
    requires '=' !in key
    ensures KeyOf(key + "=" + value) == Some(key)
  {
    PrefixIsKey(key + "=" + value, key);
  }

  // What setting a variable does to each variable.
  lemma WithSets(env: seq<string>, key: string, value: string, k: string, managed: set<string>)
    requires '=' !in key && key in managed
    ensures EntriesOf(With(env, key, value), k) == if k == key then [key + "=" + value] else EntriesOf(env, k)
    ensures Others(With(env, key, value), managed) == Others(env, managed)
  {
    KeyOfPair(key, value);
    EntriesOfWithout(env, key, k);
    EntriesOfSnoc(Without(env, key), key + "=" + value, k);
    OthersOfWithout(env, key, managed);
    OthersSnoc(Without(env, key), key + "=" + value, managed);
    assert Others(env, managed) + [] == Others(env, managed);
  }

  lemma WithDefaultSets(env: seq<string>, key: string, value: string, k: string, managed: set<string>)
    requires '=' !in key && key in managed
    ensures EntriesOf(WithDefault(env, key, value), k)
         == if k == key && EntriesOf(env, key) == [] then [key + "=" + value] else EntriesOf(env, k)
    ensures Others(WithDefault(env, key, value), managed) == Others(env, managed)
  {
    KeyOfPair(key, value);
    EntriesOfSnoc(env, key + "=" + value, k);
    OthersSnoc(env, key + "=" + value, managed);
    assert Others(env, managed) + [] == Others(env, managed);
  }

  // ----- The slice -----

  class Environment {
    var buf: array<string>
    var len: nat

    ghost predicate Valid()
      reads this
    {
      len <= buf.Length
    }

    function Contents(): seq<string>
      reads this, buf
      requires Valid()
    {
      buf[..len]
    }

    // A copy of base, with room for more entries.
    constructor (base: array<string>, room: nat)
      ensures Valid() && fresh(buf) && Contents() == base[..]
    {
      buf := new string[base.Length + room];
      len := base.Length;
      new;
      forall i | 0 <= i < base.Length {
        buf[i] := base[i];
      }
    }

    method Append(entry: string)
      requires Valid()
      modifies this, buf
      ensures Valid() && (buf == old(buf) || fresh(buf))
      ensures Contents() == old(Contents()) + [entry]
    {
      if len == buf.Length {
        var more := new string[2 * buf.Length + 1];
        forall i | 0 <= i < len {
          more[i] := buf[i];
        }
        buf := more;
      }
      buf[len] := entry;
      len := len + 1;
    }

    // Drops the entries of a variable, moving the others up within the same array.
    method Remove(key: string)
      requires Valid() && '=' !in key
      modifies this, buf
      ensures Valid() && buf == old(buf)
      ensures Contents() == Without(old(Contents()), key)
    {
      ghost var was := Contents();
      var n, out := len, 0;
      for i := 0 to n
        invariant out <= i && len == n && buf == old(buf)
        invariant buf[..out] == Without(was[..i], key)
        invariant buf[i..n] == was[i..]
      {
        assert was[..i + 1][..i] == was[..i] && buf[i..n][0] == buf[i] == was[i];
        assert buf[i + 1..n] == buf[i..n][1..];
        PrefixIsKey(buf[i], key);
        if !(key + "=" <= buf[i]) {
          buf[out] := buf[i];
          out := out + 1;
        }
      }
      assert was[..n] == was;
      len := out;
    }

    // Overrides a variable: one unambiguous entry.
    method Set(key: string, value: string)
      requires Valid() && '=' !in key
      modifies this, buf
      ensures Valid() && (buf == old(buf) || fresh(buf))
      ensures Contents() == With(old(Contents()), key, value)
    {
      Remove(key);
      Append(key + "=" + value);
    }

    method SetIfAbsent(key: string, value: string)
      requires Valid() && '=' !in key
      modifies this, buf
      ensures Valid() && (buf == old(buf) || fresh(buf))
      ensures Contents() == WithDefault(old(Contents()), key, value)
    {
      ghost var env := Contents();
      for i := 0 to len
        invariant Valid() && buf == old(buf) && Contents() == env
        invariant EntriesOf(env[..i], key) == []
      {
        assert env[..i + 1] == env[..i] + [env[i]] && env[i] == buf[i];
        EntriesOfSnoc(env[..i], buf[i], key);
        PrefixIsKey(buf[i], key);
        if key + "=" <= buf[i] {
          HasEntry(env, i, key);
          return;
        }
      }
      assert env[..len] == env;
      Append(key + "=" + value);
    }
  }

  lemma {:induction false} HasEntry(env: seq<string>, i: nat, key: string)
    requires i < |env| && KeyOf(env[i]) == Some(key)
    ensures EntriesOf(env, key) != []
  {
    if i < |env| - 1 {
      HasEntry(env[..|env| - 1], i, key);
    }
  }

  // ----- The child environment -----

  const PROFILE := "AWS_PROFILE"
  const DEFAULT_PROFILE := "AWS_DEFAULT_PROFILE"
  const SESSION_TOKEN := "AWS_SESSION_TOKEN"
  const KEY_ID := "AWS_ACCESS_KEY_ID"
  const SECRET := "AWS_SECRET_ACCESS_KEY"
  const REGION := "AWS_DEFAULT_REGION"
  const UNBUFFERED := "PYTHONUNBUFFERED"

  datatype Options = Options(useProfile: bool, account: string, accountSelected: bool)

  function BuildEnvOf(base: seq<string>, account: string): seq<string> {
    var e1 := if account != "" then With(base, KEY_ID, account) else WithDefault(base, KEY_ID, "test");
    var e2 := WithDefault(e1, SECRET, "test");
    var e3 := WithDefault(e2, REGION, "us-east-1");
    Without(e3, SESSION_TOKEN)
  }

  function ExecEnvOf(base: seq<string>, opts: Options): seq<string> {
    if !opts.useProfile then WithDefault(BuildEnvOf(base, opts.account), UNBUFFERED, "1")
    else WithDefault(CredentialsOf(ProfileOf(base), opts), UNBUFFERED, "1")
  }

  // Only the lstk profile is left selected, with nothing that would win over it.
  function ProfileOf(env: seq<string>): seq<string> {
    Without(Without(With(env, PROFILE, "localstack"), DEFAULT_PROFILE), SESSION_TOKEN)
  }

  // Both halves of the credentials in profile mode: set, or removed.
  function CredentialsOf(env: seq<string>, opts: Options): seq<string> {
    if opts.accountSelected then WithDefault(With(env, KEY_ID, opts.account), SECRET, "test")
    else Without(Without(env, KEY_ID), SECRET)
  }

  lemma KeysAreNames()
    ensures '=' !in PROFILE && '=' !in DEFAULT_PROFILE && '=' !in SESSION_TOKEN && '=' !in KEY_ID
    ensures '=' !in SECRET && '=' !in REGION && '=' !in UNBUFFERED
  {
  }

  // The key id of the account, or a default that does not override one.
  method SetKeyId(env: Environment, account: string)
    requires env.Valid()
    modifies env, env.buf
    ensures env.Valid() && (env.buf == old(env.buf) || fresh(env.buf))
    ensures env.Contents() ==
      if account != "" then With(old(env.Contents()), KEY_ID, account)
      else WithDefault(old(env.Contents()), KEY_ID, "test")
  {
    KeysAreNames();
    if account != "" {
      env.Set(KEY_ID, account);
    } else {
      env.SetIfAbsent(KEY_ID, "test");
    }
  }

  method SetDefaults(env: Environment)
    requires env.Valid()
    modifies env, env.buf
    ensures env.Valid() && (env.buf == old(env.buf) || fresh(env.buf))
    ensures env.Contents() == WithDefault(WithDefault(old(env.Contents()), SECRET, "test"), REGION, "us-east-1")
  {
    KeysAreNames();
    env.SetIfAbsent(SECRET, "test");
    env.SetIfAbsent(REGION, "us-east-1");
  }

  // The base list is only read: it is neither changed nor shared with the result.
  method BuildEnv(base: array<string>, account: string) returns (env: Environment)
    ensures fresh(env) && env.Valid() && fresh(env.buf)
    ensures env.Contents() == BuildEnvOf(base[..], account)
  {
    KeysAreNames();
    env := new Environment(base, 3);
    SetKeyId(env, account);
    SetDefaults(env);
    env.Remove(SESSION_TOKEN);
  }

  method ExecEnv(base: array<string>, opts: Options) returns (env: Environment)
    ensures fresh(env) && env.Valid() && fresh(env.buf)
    ensures env.Contents() == ExecEnvOf(base[..], opts)
  {
    KeysAreNames();
    if !opts.useProfile {
      env := BuildEnv(base, opts.account);
      env.SetIfAbsent(UNBUFFERED, "1");
      return;
    }
    env := new Environment(base, 4);
    SelectProfile(env);
    SetCredentials(env, opts);
    env.SetIfAbsent(UNBUFFERED, "1");
  }

  method SelectProfile(env: Environment)
    requires env.Valid()
    modifies env, env.buf
    ensures env.Valid() && (env.buf == old(env.buf) || fresh(env.buf))
    ensures env.Contents() == ProfileOf(old(env.Contents()))
  {
    KeysAreNames();
    env.Set(PROFILE, "localstack");
    env.Remove(DEFAULT_PROFILE);
    env.Remove(SESSION_TOKEN);
  }

  // Both halves of the credentials, always.
  method SetCredentials(env: Environment, opts: Options)
    requires env.Valid()
    modifies env, env.buf
    ensures env.Valid() && (env.buf == old(env.buf) || fresh(env.buf))
    ensures env.Contents() == CredentialsOf(old(env.Contents()), opts)
  {
    KeysAreNames();
    if opts.accountSelected {
      env.Set(KEY_ID, opts.account);
      env.SetIfAbsent(SECRET, "test");
    } else {
      env.Remove(KEY_ID);
      env.Remove(SECRET);
    }
  }

  // ----- What the child sees -----

  // The variables that lstk may change in each mode.
  function Managed(opts: Options): set<string> {
    if opts.useProfile then {PROFILE, DEFAULT_PROFILE, SESSION_TOKEN, KEY_ID, SECRET, UNBUFFERED}
    else {SESSION_TOKEN, KEY_ID, SECRET, REGION, UNBUFFERED}
  }

  function OrDefault(entries: seq<string>, key: string, value: string): seq<string> {
    if entries == [] then [key + "=" + value] else entries
  }

  // The entries of one variable in the child environment.
  function Expected(base: seq<string>, opts: Options, k: string): seq<string> {
    var was := EntriesOf(base, k);
    if k == SESSION_TOKEN then []
    else if k == UNBUFFERED then OrDefault(was, k, "1")
    else if opts.useProfile then
      if k == PROFILE then [PROFILE + "=" + "localstack"]
      else if k == DEFAULT_PROFILE then []
      else if k == KEY_ID then (if opts.accountSelected then [KEY_ID + "=" + opts.account] else [])
      else if k == SECRET then (if opts.accountSelected then OrDefault(was, k, "test") else [])
      else was
    else
      if k == KEY_ID then (if opts.account != "" then [KEY_ID + "=" + opts.account] else OrDefault(was, k, "test"))
      else if k == SECRET then OrDefault(was, k, "test")
      else if k == REGION then OrDefault(was, k, "us-east-1")
      else was
  }

  lemma KeysDiffer()
    ensures PROFILE != DEFAULT_PROFILE && PROFILE != SESSION_TOKEN && PROFILE != KEY_ID && PROFILE != SECRET
    ensures PROFILE != REGION && PROFILE != UNBUFFERED
    ensures DEFAULT_PROFILE != SESSION_TOKEN && DEFAULT_PROFILE != KEY_ID && DEFAULT_PROFILE != SECRET
    ensures DEFAULT_PROFILE != REGION && DEFAULT_PROFILE != UNBUFFERED
    ensures SESSION_TOKEN != KEY_ID && SESSION_TOKEN != SECRET && SESSION_TOKEN != REGION && SESSION_TOKEN != UNBUFFERED
    ensures KEY_ID != SECRET && KEY_ID != REGION && KEY_ID != UNBUFFERED
    ensures SECRET != REGION && SECRET != UNBUFFERED && REGION != UNBUFFERED
  {
    assert PROFILE[4] == 'P' && DEFAULT_PROFILE[4] == 'D' && SESSION_TOKEN[4] == 'S' && KEY_ID[4] == 'A';
    assert SECRET[4] == 'S' && SECRET[6] == 'C' && SESSION_TOKEN[6] == 'S' && REGION[4] == 'D' && UNBUFFERED[4] == 'O';
    assert DEFAULT_PROFILE[12] == 'P' && REGION[12] == 'R';
  }

  lemma BuildEnvSets(base: seq<string>, opts: Options, k: string)
    requires !opts.useProfile
    ensures EntriesOf(ExecEnvOf(base, opts), k) == Expected(base, opts, k)
    ensures Others(ExecEnvOf(base, opts), Managed(opts)) == Others(base, Managed(opts))
  {
    KeysAreNames();
    KeysDiffer();
    var m := Managed(opts);
    var e1 := if opts.account != "" then With(base, KEY_ID, opts.account) else WithDefault(base, KEY_ID, "test");
    if opts.account != "" {
      WithSets(base, KEY_ID, opts.account, k, m);
      WithSets(base, KEY_ID, opts.account, SECRET, m);
      WithSets(base, KEY_ID, opts.account, REGION, m);
    } else {
      WithDefaultSets(base, KEY_ID, "test", k, m);
    }
    var e2 := WithDefault(e1, SECRET, "test");
    WithDefaultSets(e1, SECRET, "test", k, m);
    var e3 := WithDefault(e2, REGION, "us-east-1");
    WithDefaultSets(e2, REGION, "us-east-1", k, m);
    EntriesOfWithout(e3, SESSION_TOKEN, k);
    OthersOfWithout(e3, SESSION_TOKEN, m);
    WithDefaultSets(Without(e3, SESSION_TOKEN), UNBUFFERED, "1", k, m);
  }

  lemma ProfileEnvSets(base: seq<string>, opts: Options, k: string)
    requires opts.useProfile
    ensures EntriesOf(ExecEnvOf(base, opts), k) == Expected(base, opts, k)
    ensures Others(ExecEnvOf(base, opts), Managed(opts)) == Others(base, Managed(opts))
  {
    KeysAreNames();
    KeysDiffer();
    var m := Managed(opts);
    var e1 := With(base, PROFILE, "localstack");
    WithSets(base, PROFILE, "localstack", k, m);
    var e2 := Without(e1, DEFAULT_PROFILE);
    EntriesOfWithout(e1, DEFAULT_PROFILE, k);
    OthersOfWithout(e1, DEFAULT_PROFILE, m);
    var e3 := Without(e2, SESSION_TOKEN);
    EntriesOfWithout(e2, SESSION_TOKEN, k);
    OthersOfWithout(e2, SESSION_TOKEN, m);
    CredentialsSet(e3, opts, k);
    WithDefaultSets(CredentialsOf(e3, opts), UNBUFFERED, "1", k, m);
  }

  lemma CredentialsSet(env: seq<string>, opts: Options, k: string)
    requires opts.useProfile
    ensures EntriesOf(CredentialsOf(env, opts), k) ==
      if k == KEY_ID then (if opts.accountSelected then [KEY_ID + "=" + opts.account] else [])
      else if k == SECRET then (if opts.accountSelected then OrDefault(EntriesOf(env, k), k, "test") else [])
      else EntriesOf(env, k)
    ensures Others(CredentialsOf(env, opts), Managed(opts)) == Others(env, Managed(opts))
  {
    KeysAreNames();
    KeysDiffer();
    var m := Managed(opts);
    if opts.accountSelected {
      WithSets(env, KEY_ID, opts.account, k, m);
      WithSets(env, KEY_ID, opts.account, SECRET, m);
      WithDefaultSets(With(env, KEY_ID, opts.account), SECRET, "test", k, m);
    } else {
      EntriesOfWithout(env, KEY_ID, k);
      OthersOfWithout(env, KEY_ID, m);
      EntriesOfWithout(Without(env, KEY_ID), SECRET, k);
      OthersOfWithout(Without(env, KEY_ID), SECRET, m);
    }
  }

  // Each variable's entries in the child are the expected ones, and the entries of all
  // the variables that are not managed keep their order.
  lemma ExecEnvIsExpected(base: seq<string>, opts: Options, k: string)
    ensures EntriesOf(ExecEnvOf(base, opts), k) == Expected(base, opts, k)
    ensures Others(ExecEnvOf(base, opts), Managed(opts)) == Others(base, Managed(opts))
  {
    if opts.useProfile {
      ProfileEnvSets(base, opts, k);
    } else {
      BuildEnvSets(base, opts, k);
    }
  }

  lemma ExpectedCredentials(base: seq<string>, opts: Options)
    ensures Expected(base, opts, SESSION_TOKEN) == []
    ensures Expected(base, opts, KEY_ID) == [] <==> opts.useProfile && !opts.accountSelected
    ensures Expected(base, opts, SECRET) == [] <==> opts.useProfile && !opts.accountSelected
  {
    KeysDiffer();
  }

  lemma ExpectedProfile(base: seq<string>, opts: Options)
    requires opts.useProfile
    ensures Expected(base, opts, PROFILE) == [PROFILE + "=" + "localstack"]
    ensures Expected(base, opts, DEFAULT_PROFILE) == []
  {
    KeysDiffer();
  }

  // The session token is always gone, and key id and secret are both there or both gone.
  lemma ChildCredentials(base: seq<string>, opts: Options)
    ensures EntriesOf(ExecEnvOf(base, opts), SESSION_TOKEN) == []
    ensures EntriesOf(ExecEnvOf(base, opts), KEY_ID) == [] <==> opts.useProfile && !opts.accountSelected
    ensures EntriesOf(ExecEnvOf(base, opts), SECRET) == [] <==> opts.useProfile && !opts.accountSelected
  {
    ExecEnvIsExpected(base, opts, SESSION_TOKEN);
    ExecEnvIsExpected(base, opts, KEY_ID);
    ExecEnvIsExpected(base, opts, SECRET);
    ExpectedCredentials(base, opts);
  }

  // In profile mode exactly one entry selects a profile.
  lemma ChildProfile(base: seq<string>, opts: Options)
    requires opts.useProfile
    ensures EntriesOf(ExecEnvOf(base, opts), PROFILE) == [PROFILE + "=" + "localstack"]
    ensures EntriesOf(ExecEnvOf(base, opts), DEFAULT_PROFILE) == []
  {
    ExecEnvIsExpected(base, opts, PROFILE);
    ExecEnvIsExpected(base, opts, DEFAULT_PROFILE);
    ExpectedProfile(base, opts);
  }
}
