/** `producer_blacklist_plugin::plugin_initialize`: the producer name, the key pair named by
    the `blacklist-signature-provider` spec `PUB=TYPE:DATA`, and the string over the sorted
    `actor-blacklist` entries whose hash the plugin keeps. */
module Blacklist {
  import opened Wrappers
  import opened SeqSearch
  import opened StringOrder
  import opened ChainTypes

  /** The default of `blacklist-signature-provider`; the option is therefore always present. */
  const DefaultSignatureProvider: string := "HEARTBEAT_PUB_KEY" + "=" + "KEY" + ":" + "HEARTBEAT_PRIVATE_KEY"

  /** A key spec split into its three parts. */
  datatype KeySpec = KeySpec(pub: string, typ: string, data: string)

  /** Splits at the first '=' and then at the first ':' after it; a spec missing either is
      rejected, as the two `EOS_ASSERT`s do. */
  function SplitKeySpec(spec: string): (r: Option<KeySpec>)
    ensures r.Some? ==> spec == r.value.pub + "=" + r.value.typ + ":" + r.value.data
    ensures r.Some? ==> '=' !in r.value.pub && ':' !in r.value.typ
    ensures '=' !in spec ==> r.None?
  {
    match Find(spec, '=')
    case None => None
    case Some(d) =>
      match Find(spec[d + 1..], ':')
      case None => None
      case Some(e) =>
        SplitAround(spec, d, e);
        Some(KeySpec(spec[..d], spec[d + 1..][..e], spec[d + 1..][e + 1..]))
  }

  /** A spec cut at an '=' at `d` and a ':' at `e` past it is the concatenation of the parts. */
  lemma SplitAround(spec: string, d: nat, e: nat)
    requires d < |spec| && spec[d] == '=' && e < |spec[d + 1..]| && spec[d + 1..][e] == ':'
    ensures spec == spec[..d] + "=" + spec[d + 1..][..e] + ":" + spec[d + 1..][e + 1..]
  {
    var rest := spec[d + 1..];
    assert rest == rest[..e] + [':'] + rest[e + 1..];
    assert spec == spec[..d] + ['='] + rest;
  }

  /** When `c` does not occur in `prefix`, the first `c` of `prefix + [c] + rest` is right
      after the prefix. */
  lemma FindAfterPrefix(prefix: string, c: char, rest: string)
    requires c !in prefix
    ensures Find(prefix + [c] + rest, c) == Some(|prefix|)
  {
    var s := prefix + [c] + rest;
    assert s[|prefix|] == c;
    assert forall k :: 0 <= k < |prefix| ==> s[k] == prefix[k];
  }

  /** The converse of the split: every `PUB=TYPE:DATA` with no '=' in PUB and no ':' in TYPE
      splits back into exactly those parts (DATA may hold anything). */
  lemma SplitKeySpecComplete(pub: string, typ: string, data: string)
    requires '=' !in pub && ':' !in typ
    ensures SplitKeySpec(pub + "=" + typ + ":" + data) == Some(KeySpec(pub, typ, data))
  {
    var rest := typ + [':'] + data;
    var spec := pub + ['='] + rest;
    assert pub + "=" + typ + ":" + data == spec;
    FindAfterPrefix(pub, '=', rest);
    assert spec[|pub| + 1..] == rest;
    FindAfterPrefix(typ, ':', data);
    assert spec[..|pub|] == pub;
    assert rest[..|typ|] == typ && rest[|typ| + 1..] == data;
  }

  /** A spec whose part after the first '=' has no ':' is rejected. */
  lemma SplitKeySpecMissingColon(pub: string, rest: string)
    requires '=' !in pub && ':' !in rest
    ensures SplitKeySpec(pub + "=" + rest).None?
  {
    var spec := pub + "=" + rest;
    assert spec == pub + ['='] + rest;
    FindAfterPrefix(pub, '=', rest);
    assert spec[|pub| + 1..] == rest;
  }

  /** The default spec is a `KEY` spec. */
  lemma DefaultSignatureProviderSplits()
    ensures SplitKeySpec(DefaultSignatureProvider) == Some(KeySpec("HEARTBEAT_PUB_KEY", "KEY", "HEARTBEAT_PRIVATE_KEY"))
  {
    var pub, typ, data := "HEARTBEAT_PUB_KEY", "KEY", "HEARTBEAT_PRIVATE_KEY";
    assert '=' !in pub;
    assert ':' !in typ;
    SplitKeySpecComplete(pub, typ, data);
  }

  datatype PublicKey = PublicKey(encoded: string)
  datatype PrivateKey = PrivateKey(encoded: string)

  /** The key constructors `public_key_type(string)` and `private_key(string)`; `None` is a
      string they throw on. */
  datatype KeyCodec = KeyCodec(publicKey: string -> Option<PublicKey>, privateKey: string -> Option<PrivateKey>)

  /** The key pair a spec loads, if it loads one: the public key is decoded first for every
      type, and only a `KEY` spec goes on to decode and load a private key; a malformed spec
      or a key that fails to decode is swallowed and loads nothing. */
  function LoadedKeys(spec: string, codec: KeyCodec): (r: Option<(PrivateKey, PublicKey)>)
    ensures r.Some? ==> && SplitKeySpec(spec).Some? && SplitKeySpec(spec).value.typ == "KEY"
                        && codec.publicKey(SplitKeySpec(spec).value.pub) == Some(r.value.1)
                        && codec.privateKey(SplitKeySpec(spec).value.data) == Some(r.value.0)
    ensures (&& SplitKeySpec(spec).Some? && SplitKeySpec(spec).value.typ == "KEY"
             && codec.publicKey(SplitKeySpec(spec).value.pub).Some?
             && codec.privateKey(SplitKeySpec(spec).value.data).Some?) ==> r.Some?
  {
    match SplitKeySpec(spec)
    case None => None
    case Some(KeySpec(pub, typ, data)) =>
      match codec.publicKey(pub)
      case None => None
      case Some(pubkey) =>
        if typ == "KEY" then
          match codec.privateKey(data)
          case None => None
          case Some(privkey) => Some((privkey, pubkey))
        else
          None
  }

  /** A well-formed `KEY` spec whose keys both decode loads exactly those keys. */
  lemma KeySpecLoads(pub: string, data: string, codec: KeyCodec)
    requires '=' !in pub
    requires codec.publicKey(pub).Some? && codec.privateKey(data).Some?
    ensures LoadedKeys(pub + "=KEY:" + data, codec) == Some((codec.privateKey(data).value, codec.publicKey(pub).value))
  {
    assert pub + "=KEY:" + data == pub + "=" + "KEY" + ":" + data;
    SplitKeySpecComplete(pub, "KEY", data);
  }

  /** Any other type, `KEOSD` included, loads nothing. */
  lemma OtherKeyTypesLoadNothing(pub: string, typ: string, data: string, codec: KeyCodec)
    requires '=' !in pub && ':' !in typ && typ != "KEY"
    ensures LoadedKeys(pub + "=" + typ + ":" + data, codec).None?
  {
    SplitKeySpecComplete(pub, typ, data);
  }

  /** No name holds a newline. */
  predicate NoNewline(names: seq<string>) {
    forall i :: 0 <= i < |names| ==> '\n' !in names[i]
  }

  /** The number of newline characters in `s`. */
  function Newlines(s: string): nat
    decreases |s|
  {
    if s == [] then 0 else Newlines(s[..|s| - 1]) + (if s[|s| - 1] == '\n' then 1 else 0)
  }

  lemma {:induction false} NewlinesAppend(a: string, b: string)
    ensures Newlines(a + b) == Newlines(a) + Newlines(b)
    decreases |b|
  {
    if b == [] {
      assert a + b == a;
    } else {
      assert (a + b)[..|a + b| - 1] == a + b[..|b| - 1];
      NewlinesAppend(a, b[..|b| - 1]);
    }
  }

  lemma {:induction false} NewlinesNone(s: string)
    ensures '\n' !in s ==> Newlines(s) == 0
    decreases |s|
  {
    if s != [] {
      assert forall c :: c in s[..|s| - 1] ==> c in s;
      NewlinesNone(s[..|s| - 1]);
    }
  }

  /** One line of the actor-blacklist string: the option's key, the name and a newline, so
      a name without a newline makes exactly one line. */
  function Entry(name: string): (r: string)
    ensures |r| == |name| + 17
    ensures r[..16] == "actor-blacklist=" && r[16..|r| - 1] == name && r[|r| - 1] == '\n'
    ensures '\n' !in name ==> Newlines(r) == 1
  {
    var key := "actor-blacklist=";
    NewlinesAppend(key + name, "\n");
    NewlinesAppend(key, name);
    NewlinesNone(key);
    NewlinesNone(name);
    key + name + "\n"
  }

  /** `std::accumulate` of the entries of `names` onto "", left to right: one line per
      name, the string ending with the line of the last name. */
  function Accumulate(names: seq<string>): (r: string)
    ensures names == [] ==> r == ""
    ensures names != [] ==> |r| > 0 && r[|r| - 1] == '\n'
    ensures NoNewline(names) ==> Newlines(r) == |names|
    decreases |names|
  {
    if |names| == 0 then ""
    else
      var init, last := names[..|names| - 1], names[|names| - 1];
      assert NoNewline(names) ==> NoNewline(init) by {
        if NoNewline(names) {
          forall i | 0 <= i < |init| ensures '\n' !in init[i] {
            assert init[i] == names[i];
          }
        }
      }
      NewlinesAppend(Accumulate(init), Entry(last));
      Accumulate(init) + Entry(last)
  }

  /** The accumulated string is the first entry followed by the rest. */
  lemma {:induction false} AccumulateCons(name: string, names: seq<string>)
    ensures Accumulate([name] + names) == Entry(name) + Accumulate(names)
    decreases |names|
  {
    var s := [name] + names;
    if |names| > 0 {
      assert s[..|s| - 1] == [name] + names[..|names| - 1];
      assert s[|s| - 1] == names[|names| - 1];
      AccumulateCons(name, names[..|names| - 1]);
    } else {
      assert s[..|s| - 1] == [];
    }
  }

  /** The string the plugin hashes: the entries of the sorted actor list, concatenated,
      one line per actor. */
  function ActorBlacklistString(actors: seq<string>): (r: string)
    ensures actors == [] <==> r == ""
    ensures NoNewline(actors) ==> Newlines(r) == |actors|
  {
    SortKeepsNoNewline(actors);
    assert |Sort(actors)| == |multiset(Sort(actors))| == |actors|;
    Accumulate(Sort(actors))
  }

  /** Sorting keeps the names, so it keeps them newline-free. */
  lemma SortKeepsNoNewline(a: seq<string>)
    ensures NoNewline(a) ==> NoNewline(Sort(a))
  {
    var s := Sort(a);
    if NoNewline(a) {
      forall i | 0 <= i < |s| ensures '\n' !in s[i] {
        assert s[i] in multiset(a);
      }
    }
  }

  /** The string, and so its hash, is the same for every order of the option's values. */
  lemma ActorBlacklistStringPermutationInvariant(a: seq<string>, b: seq<string>)
    requires multiset(a) == multiset(b)
    ensures ActorBlacklistString(a) == ActorBlacklistString(b)
  {
    SortPermutationInvariant(a, b);
  }

  /** For an already sorted list the string is its entries in the given order. */
  lemma ActorBlacklistStringOfSorted(actors: seq<string>)
    requires Sorted(actors)
    ensures ActorBlacklistString(actors) == Accumulate(actors)
  {
    SortOfSorted(actors);
  }

  /** One entry followed by anything determines the entry's name and the rest, as long as
      the names hold no newline. */
  lemma EntryPrefixUnique(x: string, r1: string, y: string, r2: string)
    requires '\n' !in x && '\n' !in y
    requires Entry(x) + r1 == Entry(y) + r2
    ensures x == y && r1 == r2
  {
    var s := Entry(x) + r1;
    var p := "actor-blacklist=";
    assert Entry(x) + r1 == p + x + ['\n'] + r1;
    assert Entry(y) + r2 == p + y + ['\n'] + r2;
    assert s[|p| + |x|] == '\n';
    assert s[|p| + |y|] == '\n';
    assert x == s[|p|..|p| + |x|];
    assert y == s[|p|..|p| + |y|];
    assert r1 == s[|p| + |x| + 1..];
    assert r2 == s[|p| + |y| + 1..];
  }

  /** Without newlines in the names, the accumulated string determines the list. */
  lemma {:induction false} AccumulateInjective(a: seq<string>, b: seq<string>)
    requires NoNewline(a) && NoNewline(b)
    requires Accumulate(a) == Accumulate(b)
    ensures a == b
    decreases |a|
  {
    if |a| > 0 && |b| > 0 {
      assert a == [a[0]] + a[1..];
      assert b == [b[0]] + b[1..];
      AccumulateCons(a[0], a[1..]);
      AccumulateCons(b[0], b[1..]);
      EntryPrefixUnique(a[0], Accumulate(a[1..]), b[0], Accumulate(b[1..]));
      AccumulateInjective(a[1..], b[1..]);
    }
  }

  /** The string tells blacklists apart: two lists of newline-free names give the same
      string exactly when they hold the same names the same number of times. */
  lemma ActorBlacklistStringDeterminesEntries(a: seq<string>, b: seq<string>)
    requires NoNewline(a) && NoNewline(b)
    ensures ActorBlacklistString(a) == ActorBlacklistString(b) <==> multiset(a) == multiset(b)
  {
    if ActorBlacklistString(a) == ActorBlacklistString(b) {
      SortKeepsNoNewline(a);
      SortKeepsNoNewline(b);
      AccumulateInjective(Sort(a), Sort(b));
    } else if multiset(a) == multiset(b) {
      ActorBlacklistStringPermutationInvariant(a, b);
    }
  }

  /** The options `plugin_initialize` reads; `None` is an option that was not given. */
  datatype Options = Options(
    producerName: Option<seq<string>>,
    actorBlacklist: Option<seq<string>>,
    signatureProvider: Option<string>)

  class BlacklistPlugin {
    /** An `account_name`; default-constructed it is the empty name, 0. */
    var producerName: Name
    /** `None` while the key is still default-constructed. */
    var privateKey: Option<PrivateKey>
    var publicKey: Option<PublicKey>
    var actorBlacklistHash: string

    constructor ()
      ensures producerName == 0 && privateKey.None? && publicKey.None? && actorBlacklistHash == ""
    {
      producerName := 0;
      privateKey := None;
      publicKey := None;
      actorBlacklistHash := "";
    }

    /** Each option, when given, sets its field; the others keep their values. `toName` is
        the string-to-`account_name` conversion, `None` where it throws; `hash` is `sha256`
        rendered as a string. `ok` is false where the call fails: the producer name is
        converted first and outside the handler around the key spec, so a name that does
        not convert fails the whole call before any field is set. */
    method PluginInitialize(options: Options, toName: string -> Option<Name>, codec: KeyCodec, hash: string -> string)
      returns (ok: bool)
      requires options.producerName.Some? ==> |options.producerName.value| > 0
      modifies this
      ensures ok <==> (options.producerName.Some? ==> toName(options.producerName.value[0]).Some?)
      ensures !ok ==> producerName == old(producerName) && actorBlacklistHash == old(actorBlacklistHash)
                      && privateKey == old(privateKey) && publicKey == old(publicKey)
      ensures ok ==> producerName == if options.producerName.Some? then toName(options.producerName.value[0]).value
                                     else old(producerName)
      ensures ok ==> actorBlacklistHash == if options.actorBlacklist.Some? then hash(ActorBlacklistString(options.actorBlacklist.value))
                                           else old(actorBlacklistHash)
      ensures ok ==> var loaded := if options.signatureProvider.Some? then LoadedKeys(options.signatureProvider.value, codec) else None;
                     if loaded.Some? then privateKey == Some(loaded.value.0) && publicKey == Some(loaded.value.1)
                     else privateKey == old(privateKey) && publicKey == old(publicKey)
    {
      if options.producerName.Some? {
        var n := toName(options.producerName.value[0]);
        if n.None? {
          return false;
        }
        producerName := n.value;
      }
      if options.actorBlacklist.Some? {
        var sorted := Sort(options.actorBlacklist.value);
        var str := Accumulate(sorted);
        actorBlacklistHash := hash(str);
      }
      if options.signatureProvider.Some? {
        var keys := LoadedKeys(options.signatureProvider.value, codec);
        if keys.Some? {
          privateKey := Some(keys.value.0);
          publicKey := Some(keys.value.1);
        }
      }
      ok := true;
    }
  }
}
