/** The agent that caches wrap keys for a while (src/agent.rs), against the history of what it was asked. */
module Agent {
  import opened Common

  type Key = seq<byte>

  const KEY_LENGTH := 32

  // ---------------------------------------------------------------------------------------------
  // Requests

  datatype Request = Get(id: string) | Put(id: string, encoded: string) | Drop | Status | Stop | Other(verb: string)

  /** The text before the first space, and the text after it. */
  function Head(s: string): string {
    if s == "" || s[0] == ' ' then "" else [s[0]] + Head(s[1..])
  }

  function Tail(s: string): string {
    if s == "" then "" else if s[0] == ' ' then s[1..] else Tail(s[1..])
  }

  /** A trimmed request line is split at its first two spaces. */
  function Parse(line: string): Request {
    var verb, rest := Head(line), Tail(line);
    match verb
    case "GET" => Get(Head(rest))
    case "PUT" => Put(Head(rest), Tail(rest))
    case "DROP" => Drop
    case "STATUS" => Status
    case "STOP" => Stop
    case _ => Other(verb)
  }

  lemma {:induction false} SplitsAtSpace(word: string, rest: string)
    requires ' ' !in word
    ensures Head(word + " " + rest) == word && Tail(word + " " + rest) == rest
    ensures Head(word) == word
  {
    if word != "" {
      SplitsAtSpace(word[1..], rest);
      assert (word + " " + rest)[1..] == word[1..] + " " + rest;
    } else {
      assert word + " " + rest == " " + rest;
    }
  }

  /** The agent reads the lines its clients write as they mean them, whatever encoded text they carry. */
  lemma {:induction false} ClientLinesAreUnderstood(id: string, encoded: string)
    requires ' ' !in id
    ensures Parse("GET" + " " + id) == Get(id)
    ensures Parse("PUT" + " " + (id + " " + encoded)) == Put(id, encoded)
    ensures Parse("DROP") == Drop && Parse("STATUS") == Status && Parse("STOP") == Stop
  {
    hide Head, Tail;
    SplitsAtSpace("GET", id);
    SplitsAtSpace("PUT", id + " " + encoded);
    SplitsAtSpace(id, encoded);
    SplitsAtSpace("DROP", "");
    SplitsAtSpace("STATUS", "");
    SplitsAtSpace("STOP", "");
  }

  /** Any other verb is unknown. */
  lemma {:induction false} OtherVerbsAreUnknown(verb: string, rest: string)
    requires ' ' !in verb && verb !in {"GET", "PUT", "DROP", "STATUS", "STOP"}
    ensures Parse(verb) == Other(verb) && Parse(verb + " " + rest) == Other(verb)
  {
    hide Head, Tail;
    SplitsAtSpace(verb, rest);
  }

  /** A line as it arrives: the clock when its turn comes, the clock when it is done, and whether the reply
      could be written. */
  datatype Event = Event(line: string, now: int, done: int, heard: bool)

  datatype CachedKey = CachedKey(key: Key, expires: int)

  /** How long keys live, and the decoder of their text, which gives no bytes when it fails. */
  datatype Config = Config(ttl: nat, decode: string -> Key)

  datatype Reply =
    | Found(key: Key) | Miss | Stored | BadRequest
    | Dropped(n: nat) | Holding(n: nat) | Stopping | UnknownVerb(verb: string)

  // ---------------------------------------------------------------------------------------------
  // What the history says

  /** `e` stores a key under `id`: the id is not empty and the key has the right length. */
  predicate Stores(c: Config, e: Event, id: string) {
    var r := Parse(e.line);
    r.Put? && r.id == id && id != "" && |c.decode(r.encoded)| == KEY_LENGTH
  }

  predicate Clears(e: Event) {
    Parse(e.line).Drop? || Parse(e.line).Stop?
  }

  function EntryOf(c: Config, e: Event): CachedKey
    requires Parse(e.line).Put?
  {
    CachedKey(c.decode(Parse(e.line).encoded), e.done + c.ttl)
  }

  /** Event `i` stored a key under `id`, and nothing since replaced or cleared it. */
  predicate LastStores(c: Config, history: seq<Event>, i: nat, id: string) {
    && i < |history|
    && Stores(c, history[i], id)
    && forall j :: i < j < |history| ==> !Stores(c, history[j], id) && !Clears(history[j])
  }

  predicate Gives(entry: CachedKey, key: Key, now: int) {
    entry.key == key && entry.expires > now
  }

  /** `key` was stored last under `id`, and has not expired at `now`. */
  ghost predicate IsLive(c: Config, history: seq<Event>, id: string, key: Key, now: int) {
    exists i: nat :: LastStores(c, history, i, id) && Gives(EntryOf(c, history[i]), key, now)
  }

  function After(c: Config, m: map<string, CachedKey>, e: Event): map<string, CachedKey> {
    if Clears(e) then map[]
    else if Parse(e.line).Put? && Stores(c, e, Parse(e.line).id) then m[Parse(e.line).id := EntryOf(c, e)]
    else m
  }

  /** Everything stored and not cleared, expired or not. */
  function Log(c: Config, history: seq<Event>): map<string, CachedKey> {
    if history == [] then map[] else After(c, Log(c, history[..|history| - 1]), history[|history| - 1])
  }

  lemma {:induction false} LogIsLastStored(c: Config, history: seq<Event>, id: string, entry: CachedKey)
    ensures (id in Log(c, history) && Log(c, history)[id] == entry) <==>
            exists i: nat :: LastStores(c, history, i, id) && EntryOf(c, history[i]) == entry
  {
    if history != [] {
      hide Stores, Clears;
      var n := |history| - 1;
      var e := history[n];
      LogIsLastStored(c, history[..n], id, entry);
      if Stores(c, e, id) {
        assert LastStores(c, history, n, id);
        assert forall i: nat :: LastStores(c, history, i, id) ==> i == n;
      } else if Clears(e) {
        assert forall i: nat :: !LastStores(c, history, i, id);
      } else {
        SameLastStores(c, history, id);
      }
    }
  }

  /** An event that neither stores nor clears the id changes nothing about what stored it last. */
  lemma {:induction false} SameLastStores(c: Config, history: seq<Event>, id: string)
    requires history != []
    requires var e := history[|history| - 1]; !Stores(c, e, id) && !Clears(e)
    ensures forall i: nat :: LastStores(c, history, i, id) <==> LastStores(c, history[..|history| - 1], i, id)
  {
    hide Stores, Clears;
    forall i: nat
      ensures LastStores(c, history, i, id) <==> LastStores(c, history[..|history| - 1], i, id)
    {
    }
  }

  function Live(c: Config, history: seq<Event>, now: int): map<string, Key> {
    var log := Log(c, history);
    map id | id in log && log[id].expires > now :: log[id].key
  }

  /** The reference map holds exactly the keys that were stored last and have not expired. */
  lemma {:induction false} LiveIff(c: Config, history: seq<Event>, now: int, id: string, key: Key)
    ensures (id in Live(c, history, now) && Live(c, history, now)[id] == key) <==> IsLive(c, history, id, key, now)
  {
    if id in Log(c, history) {
      LogIsLastStored(c, history, id, Log(c, history)[id]);
    }
    if IsLive(c, history, id, key, now) {
      var i: nat :| LastStores(c, history, i, id) && Gives(EntryOf(c, history[i]), key, now);
      LogIsLastStored(c, history, id, EntryOf(c, history[i]));
    }
  }

  // ---------------------------------------------------------------------------------------------
  // The cache, which forgets expired keys only when it happens to look

  /** `keys` is the log, except that some keys that have expired by `clock` are gone. */
  ghost predicate Reflects(c: Config, keys: map<string, CachedKey>, history: seq<Event>, clock: int) {
    var log := Log(c, history);
    && (forall id :: id in keys ==> id in log && log[id] == keys[id])
    && forall id :: id in log && id !in keys ==> log[id].expires <= clock
  }

  function Unexpired(keys: map<string, CachedKey>, now: int): map<string, CachedKey> {
    map id | id in keys && keys[id].expires > now :: keys[id]
  }

  /** Handling `e` makes the cache look at its keys: a GET, a STATUS, or a PUT that is accepted. */
  predicate Reaps(c: Config, e: Event) {
    var r := Parse(e.line);
    r.Get? || r.Status? || (r.Put? && Stores(c, e, r.id))
  }

  /** What the cache holds after `history`. */
  function Kept(c: Config, history: seq<Event>): map<string, CachedKey> {
    if history == [] then map[]
    else
      var before, e := Kept(c, history[..|history| - 1]), history[|history| - 1];
      After(c, if Reaps(c, e) then Unexpired(before, e.now) else before, e)
  }

  /** Event `i` stored `entry` under `id`, nothing since replaced or cleared it, and the cache has not looked at its
      keys since that entry expired. */
  predicate LastKeeps(c: Config, history: seq<Event>, i: nat, id: string, entry: CachedKey) {
    && LastStores(c, history, i, id) && EntryOf(c, history[i]) == entry
    && forall j :: i < j < |history| && Reaps(c, history[j]) ==> history[j].now < entry.expires
  }

  ghost predicate IsKept(c: Config, history: seq<Event>, id: string, entry: CachedKey) {
    exists i: nat :: LastKeeps(c, history, i, id, entry)
  }

  lemma {:induction false} NewestIsKept(c: Config, history: seq<Event>, id: string, entry: CachedKey)
    requires history != [] && Stores(c, history[|history| - 1], id)
    ensures IsKept(c, history, id, entry) <==> entry == EntryOf(c, history[|history| - 1])
  {
    if entry == EntryOf(c, history[|history| - 1]) {
      assert LastKeeps(c, history, |history| - 1, id, entry);
    }
  }

  lemma {:induction false} ClearedIsNotKept(c: Config, history: seq<Event>, id: string, entry: CachedKey)
    requires history != [] && Clears(history[|history| - 1])
    ensures !IsKept(c, history, id, entry)
  {
  }

  lemma {:induction false} OtherIsKept(c: Config, history: seq<Event>, id: string, entry: CachedKey)
    requires history != []
    requires var e := history[|history| - 1]; !Stores(c, e, id) && !Clears(e)
    ensures var n := |history| - 1;
            IsKept(c, history, id, entry) <==>
            IsKept(c, history[..n], id, entry) && (Reaps(c, history[n]) ==> history[n].now < entry.expires)
  {
    hide Stores, Clears, Reaps, EntryOf;
    var n := |history| - 1;
    if i: nat :| LastKeeps(c, history, i, id, entry) {
      assert i < n;
      assert LastKeeps(c, history[..n], i, id, entry);
    }
    if IsKept(c, history[..n], id, entry) && (Reaps(c, history[n]) ==> history[n].now < entry.expires) {
      var i: nat :| LastKeeps(c, history[..n], i, id, entry);
      forall j | i < j < |history|
        ensures !Stores(c, history[j], id) && !Clears(history[j])
        ensures Reaps(c, history[j]) ==> history[j].now < entry.expires
      {
        if j < n {
          assert history[j] == history[..n][j];
        }
      }
      assert LastKeeps(c, history, i, id, entry);
    }
  }

  /** The cache holds exactly the keys that were stored last, not cleared, and not looked at since they expired. */
  lemma {:induction false} KeptIff(c: Config, history: seq<Event>, id: string, entry: CachedKey)
    ensures (id in Kept(c, history) && Kept(c, history)[id] == entry) <==> IsKept(c, history, id, entry)
  {
    if history != [] {
      hide IsKept, Reaps;
      var n := |history| - 1;
      KeptIff(c, history[..n], id, entry);
      if Stores(c, history[n], id) {
        NewestIsKept(c, history, id, entry);
      } else if Clears(history[n]) {
        ClearedIsNotKept(c, history, id, entry);
      } else {
        OtherIsKept(c, history, id, entry);
      }
    }
  }

  lemma {:induction false} ReapingReflects(c: Config, keys: map<string, CachedKey>, history: seq<Event>, clock: int,
                                           now: int)
    requires Reflects(c, keys, history, clock) && clock <= now
    ensures Reflects(c, Unexpired(keys, now), history, now)
    ensures Reflects(c, keys, history, now)
    ensures
      var reaped, live := Unexpired(keys, now), Live(c, history, now);
      reaped.Keys == live.Keys && |reaped| == |live| && forall id :: id in reaped ==> reaped[id].key == live[id]
  {
    hide Log;
    var reaped, live := Unexpired(keys, now), Live(c, history, now);
    assert reaped.Keys == live.Keys;
    assert |reaped| == |reaped.Keys| == |live.Keys| == |live|;
  }

  lemma {:induction false} HandlingReflects(c: Config, keys: map<string, CachedKey>, history: seq<Event>, clock: int,
                                            e: Event)
    requires Reflects(c, keys, history, clock) && clock <= e.done
    ensures Reflects(c, After(c, keys, e), history + [e], e.done)
  {
    assert (history + [e])[..|history|] == history;
  }

  lemma {:induction false} HandlingKeeps(c: Config, history: seq<Event>, e: Event)
    ensures var before := Kept(c, history);
            Kept(c, history + [e]) == After(c, if Reaps(c, e) then Unexpired(before, e.now) else before, e)
  {
    assert (history + [e])[..|history|] == history;
  }

  class Cache {
    var keys: map<string, CachedKey>
    const config: Config
    ghost var history: seq<Event>
    /** The latest time the cache has seen. */
    ghost var clock: int

    ghost predicate Valid()
      reads this
    {
      Reflects(config, keys, history, clock) && keys == Kept(config, history)
    }

    constructor (config: Config, start: int)
      ensures Valid() && history == [] && clock == start && this.config == config
    {
      keys := map[];
      this.config := config;
      history := [];
      clock := start;
    }

    method Reap(now: int)
      modifies this`keys
      ensures keys == Unexpired(old(keys), now)
    {
      keys := map id | id in keys && keys[id].expires > now :: keys[id];
    }

    /** Handles one line.  The clock does not go back.  `stop` is whether the agent exits. */
    method Handle(line: string, now: int, done: int, heard: bool) returns (reply: Reply, stop: bool)
      requires Valid() && clock <= now <= done
      modifies this
      ensures Valid() && clock == done && history == old(history) + [Event(line, now, done, heard)]
      ensures stop <==> Parse(line).Stop? && heard
      ensures Answers(config, old(history), Event(line, now, done, heard), reply)
      ensures reply.BadRequest? || reply.UnknownVerb? ==> keys == old(keys)
    {
      hide Log, Kept, Reflects, Live, Parse;
      ghost var e := Event(line, now, done, heard);
      ReapingReflects(config, keys, history, clock, now);
      HandlingKeeps(config, history, e);
      HandlingReflects(config, keys, history, clock, e);
      HandlingReflects(config, Unexpired(keys, now), history, now, e);
      history, clock := history + [e], done;
      stop := false;
      match Parse(line)
      case Get(id) =>
        Reap(now);
        reply := if id in keys then Found(keys[id].key) else Miss;
      case Put(id, encoded) =>
        var bytes := config.decode(encoded);
        if id == "" || |bytes| != KEY_LENGTH {
          reply := BadRequest;
        } else {
          Reap(now);
          keys := keys[id := CachedKey(bytes, done + config.ttl)];
          reply := Stored;
        }
      case Drop =>
        reply := Dropped(|keys|);
        keys := map[];
      case Status =>
        Reap(now);
        reply := Holding(|keys|);
      case Stop =>
        keys := map[];
        reply := Stopping;
        stop := heard;
      case Other(verb) =>
        reply := UnknownVerb(verb);
    }
  }

  /** The right reply to `e` after `history`.  DROP counts what the cache holds, expired or not. */
  ghost predicate Answers(c: Config, history: seq<Event>, e: Event, reply: Reply) {
    var live := Live(c, history, e.now);
    match Parse(e.line)
    case Get(id) => reply == if id in live then Found(live[id]) else Miss
    case Put(id, encoded) => reply == if Stores(c, e, id) then Stored else BadRequest
    case Drop => reply == Dropped(|Kept(c, history)|)
    case Status => reply == Holding(|live|)
    case Stop => reply == Stopping
    case Other(verb) => reply == UnknownVerb(verb)
  }

  // ---------------------------------------------------------------------------------------------
  // What the replies say about the lines that came before

  /** The key that a line puts under an id that is not empty: 32 bytes. */
  function KeyPut(c: Config, line: string, id: string): Option<Key> {
    match Parse(line)
    case Put(to, text) => if to == id && id != "" && |c.decode(text)| == 32 then Some(c.decode(text)) else None
    case _ => None
  }

  /** Line `i` put `key` under `id`, and since then none put another one there and none was DROP or STOP. */
  predicate Newest(c: Config, history: seq<Event>, i: nat, id: string, key: Key) {
    && i < |history| && KeyPut(c, history[i].line, id) == Some(key)
    && forall j :: i < j < |history| ==>
         && KeyPut(c, history[j].line, id) == None
         && Parse(history[j].line) != Drop && Parse(history[j].line) != Stop
  }

  lemma {:induction false} NewestIff(c: Config, history: seq<Event>, i: nat, id: string, key: Key)
    ensures Newest(c, history, i, id, key) <==>
            LastStores(c, history, i, id) && EntryOf(c, history[i]) == CachedKey(key, history[i].done + c.ttl)
  {
    hide Parse;
  }

  /** The key put last under `id` is younger than the configured time. */
  ghost predicate IsYoung(c: Config, history: seq<Event>, id: string, key: Key, now: int) {
    exists i: nat :: Newest(c, history, i, id, key) && now < history[i].done + c.ttl
  }

  lemma {:induction false} LiveIsYoung(c: Config, history: seq<Event>, id: string, key: Key, now: int)
    ensures IsLive(c, history, id, key, now) <==> IsYoung(c, history, id, key, now)
  {
    hide Parse, KeyPut;
    if IsLive(c, history, id, key, now) {
      var i: nat :| LastStores(c, history, i, id) && Gives(EntryOf(c, history[i]), key, now);
      StoredEntry(c, history, i, id);
      NewestIff(c, history, i, id, key);
    }
    if IsYoung(c, history, id, key, now) {
      var i: nat :| Newest(c, history, i, id, key) && now < history[i].done + c.ttl;
      NewestIff(c, history, i, id, key);
    }
  }

  lemma {:induction false} StoredEntry(c: Config, history: seq<Event>, i: nat, id: string)
    requires LastStores(c, history, i, id)
    ensures EntryOf(c, history[i]) == CachedKey(EntryOf(c, history[i]).key, history[i].done + c.ttl)
  {
  }

  /** GET finds a key if and only if it was put last under that id, no DROP or STOP came since, and less than the
      configured time has passed since it was put. */
  lemma {:induction false} GetIff(c: Config, history: seq<Event>, e: Event, id: string, reply: Reply, key: Key)
    requires Parse(e.line) == Get(id) && Answers(c, history, e, reply)
    ensures reply == Found(key) <==>
            exists i: nat :: Newest(c, history, i, id, key) && e.now < history[i].done + c.ttl
    ensures reply.Miss? || reply.Found?
  {
    LiveIff(c, history, e.now, id, key);
    LiveIsYoung(c, history, id, key, e.now);
  }

  /** PUT is accepted if and only if it puts 32 bytes under an id. */
  lemma {:induction false} PutIff(c: Config, history: seq<Event>, e: Event, reply: Reply)
    requires Parse(e.line).Put? && Answers(c, history, e, reply)
    ensures reply == (if KeyPut(c, e.line, Parse(e.line).id).Some? then Stored else BadRequest)
  {
    hide Parse, Live;
  }

  /** STATUS counts exactly the ids that GET would find. */
  lemma {:induction false} StatusCounts(c: Config, history: seq<Event>, e: Event, reply: Reply, ids: set<string>)
    requires Parse(e.line) == Status && Answers(c, history, e, reply)
    requires forall id :: id in ids <==> exists key :: IsYoung(c, history, id, key, e.now)
    ensures reply == Holding(|ids|)
  {
    hide IsLive, IsYoung;
    forall id, key
      ensures IsLive(c, history, id, key, e.now) <==> IsYoung(c, history, id, key, e.now)
    {
      LiveIsYoung(c, history, id, key, e.now);
    }
    var live := Live(c, history, e.now);
    forall id
      ensures id in ids <==> id in live.Keys
    {
      if id in live {
        LiveIff(c, history, e.now, id, live[id]);
      }
      if id in ids {
        var key :| IsLive(c, history, id, key, e.now);
        LiveIff(c, history, e.now, id, key);
      }
    }
    assert ids == live.Keys;
  }

  // ---------------------------------------------------------------------------------------------
  // What DROP counts

  /** A line that makes the agent look at its keys: GET, STATUS, or a PUT that is accepted. */
  predicate Looks(c: Config, line: string) {
    match Parse(line)
    case Get(_) => true
    case Status => true
    case Put(id, _) => KeyPut(c, line, id).Some?
    case _ => false
  }

  /** Line `i` put `key` under `id`, it is the newest there, and no line since that made the agent look came when the
      configured time had passed. */
  predicate Unnoticed(c: Config, history: seq<Event>, i: nat, id: string, key: Key) {
    && Newest(c, history, i, id, key)
    && forall j :: i < j < |history| && Looks(c, history[j].line) ==> history[j].now < history[i].done + c.ttl
  }

  ghost predicate IsUnnoticed(c: Config, history: seq<Event>, id: string) {
    exists i: nat, key :: Unnoticed(c, history, i, id, key)
  }

  lemma {:induction false} LooksIff(c: Config, e: Event)
    ensures Looks(c, e.line) <==> Reaps(c, e)
  {
    hide Parse;
  }

  lemma {:induction false} UnnoticedIff(c: Config, history: seq<Event>, i: nat, id: string, key: Key)
    ensures Unnoticed(c, history, i, id, key) <==>
            i < |history| && LastKeeps(c, history, i, id, CachedKey(key, history[i].done + c.ttl))
  {
    hide Parse, KeyPut, Looks, Reaps;
    NewestIff(c, history, i, id, key);
    forall e: Event ensures Looks(c, e.line) <==> Reaps(c, e) {
      LooksIff(c, e);
    }
  }

  lemma {:induction false} KeptIsUnnoticed(c: Config, history: seq<Event>, id: string)
    ensures (exists entry :: IsKept(c, history, id, entry)) <==> IsUnnoticed(c, history, id)
  {
    hide Unnoticed, LastKeeps;
    if entry :| IsKept(c, history, id, entry) {
      var i: nat :| LastKeeps(c, history, i, id, entry);
      KeepsMeans(c, history, i, id, entry);
      UnnoticedIff(c, history, i, id, entry.key);
    }
    if i: nat, key :| Unnoticed(c, history, i, id, key) {
      UnnoticedIff(c, history, i, id, key);
      assert IsKept(c, history, id, CachedKey(key, history[i].done + c.ttl));
    }
  }

  lemma {:induction false} KeepsMeans(c: Config, history: seq<Event>, i: nat, id: string, entry: CachedKey)
    requires LastKeeps(c, history, i, id, entry)
    ensures i < |history| && entry == CachedKey(entry.key, history[i].done + c.ttl)
  {
  }

  /** DROP counts exactly the ids whose newest key no line found too old. */
  lemma {:induction false} DropCounts(c: Config, history: seq<Event>, e: Event, reply: Reply, ids: set<string>)
    requires Parse(e.line) == Drop && Answers(c, history, e, reply)
    requires forall id :: id in ids <==> IsUnnoticed(c, history, id)
    ensures reply == Dropped(|ids|)
  {
    hide IsKept, IsUnnoticed;
    forall id ensures (exists entry :: IsKept(c, history, id, entry)) <==> IsUnnoticed(c, history, id) {
      KeptIsUnnoticed(c, history, id);
    }
    var kept := Kept(c, history);
    forall id
      ensures id in ids <==> id in kept.Keys
    {
      if id in kept {
        KeptIff(c, history, id, kept[id]);
      }
      if id in ids {
        var entry :| IsKept(c, history, id, entry);
        KeptIff(c, history, id, entry);
      }
    }
    assert ids == kept.Keys;
  }

  /** The clock does not go back. */
  predicate Chronological(history: seq<Event>, now: int) {
    && (forall i :: 0 <= i < |history| ==> history[i].now <= history[i].done <= now)
    && forall i, j :: 0 <= i < j < |history| ==> history[i].done <= history[j].now
  }

  lemma {:induction false} KeptReflects(c: Config, history: seq<Event>, now: int)
    requires Chronological(history, now)
    ensures Reflects(c, Kept(c, history), history, now)
  {
    if history != [] {
      hide Log, Kept, Reflects;
      var n := |history| - 1;
      var e := history[n];
      assert history == history[..n] + [e];
      KeptReflects(c, history[..n], e.now);
      ReapingReflects(c, Kept(c, history[..n]), history[..n], e.now, e.now);
      HandlingKeeps(c, history[..n], e);
      HandlingReflects(c, Kept(c, history[..n]), history[..n], e.now, e);
      HandlingReflects(c, Unexpired(Kept(c, history[..n]), e.now), history[..n], e.now, e);
      LaterReflects(c, Kept(c, history), history, e.done, now);
    } else {
      assert Log(c, history) == map[];
    }
  }

  lemma {:induction false} LaterReflects(c: Config, keys: map<string, CachedKey>, history: seq<Event>, clock: int,
                                         now: int)
    requires Reflects(c, keys, history, clock) && clock <= now
    ensures Reflects(c, keys, history, now)
  {
  }

  /** The count that DROP gives is the number of keys that GET would find if and only if none of the keys that it
      counts is too old. */
  lemma {:induction false} DropCountsLiveIff(c: Config, history: seq<Event>, e: Event, reply: Reply)
    requires Parse(e.line) == Drop && Answers(c, history, e, reply) && Chronological(history, e.now)
    ensures reply == Dropped(|Live(c, history, e.now)|) <==>
            forall id, key, i: nat :: Unnoticed(c, history, i, id, key) ==> e.now < history[i].done + c.ttl
  {
    hide Parse, KeyPut, Looks, Reaps, LastKeeps, Live, Kept;
    KeptCountsLiveIff(c, history, e, reply);
    if forall id, entry :: IsKept(c, history, id, entry) ==> entry.expires > e.now {
      forall id, key, i: nat | Unnoticed(c, history, i, id, key) ensures e.now < history[i].done + c.ttl {
        UnnoticedIff(c, history, i, id, key);
        assert IsKept(c, history, id, CachedKey(key, history[i].done + c.ttl));
      }
    }
    if forall id, key, i: nat :: Unnoticed(c, history, i, id, key) ==> e.now < history[i].done + c.ttl {
      forall id, entry | IsKept(c, history, id, entry) ensures entry.expires > e.now {
        var i: nat :| LastKeeps(c, history, i, id, entry);
        KeepsMeans(c, history, i, id, entry);
        UnnoticedIff(c, history, i, id, entry.key);
      }
    }
  }

  lemma {:induction false} KeptCountsLiveIff(c: Config, history: seq<Event>, e: Event, reply: Reply)
    requires Parse(e.line) == Drop && Answers(c, history, e, reply) && Chronological(history, e.now)
    ensures reply == Dropped(|Live(c, history, e.now)|) <==>
            forall id, entry :: IsKept(c, history, id, entry) ==> entry.expires > e.now
  {
    hide Log, Kept, IsKept, Live, Reflects;
    var kept, live := Kept(c, history), Live(c, history, e.now);
    var unexpired := Unexpired(kept, e.now);
    KeptReflects(c, history, e.now);
    ReapingReflects(c, kept, history, e.now, e.now);
    SameSize(kept, unexpired);
    if forall id, entry :: IsKept(c, history, id, entry) ==> entry.expires > e.now {
      forall id | id in kept ensures id in unexpired {
        KeptIff(c, history, id, kept[id]);
      }
    }
    if kept.Keys == unexpired.Keys {
      forall id, entry | IsKept(c, history, id, entry) ensures entry.expires > e.now {
        KeptIff(c, history, id, entry);
      }
    }
  }

  lemma {:induction false} SameSize(m: map<string, CachedKey>, part: map<string, CachedKey>)
    requires part.Keys <= m.Keys
    ensures |part| == |m| <==> part.Keys == m.Keys
  {
    assert m.Keys == part.Keys + (m.Keys - part.Keys);
    assert |part| == |part.Keys| && |m| == |m.Keys|;
  }

  /** One key, stored at time 0 for 900 seconds and dropped at time 900: DROP reports one key, although a GET would
      have found none. */
  lemma {:induction false} DropCountsExpired() returns (c: Config, history: seq<Event>, e: Event)
    ensures c.ttl == 900 && e.now == 900 && Parse(e.line) == Drop && Chronological(history, e.now)
    ensures Answers(c, history, e, Dropped(1)) && |Live(c, history, e.now)| == 0
  {
    c := Config(900, text => seq(32, i => 0));
    var put := Event("PUT" + " " + ("a" + " " + "k"), 0, 0, true);
    history, e := [put], Event("DROP", 900, 900, true);
    ClientLinesAreUnderstood("a", "k");
    assert Stores(c, put, "a");
    hide Head, Tail, Parse;
    AfterOnePut(c, put, "a");
    assert Live(c, history, 900) == map[];
  }

  lemma {:induction false} AfterOnePut(c: Config, put: Event, id: string)
    requires Stores(c, put, id)
    ensures Kept(c, [put]) == map[id := EntryOf(c, put)] && Log(c, [put]) == map[id := EntryOf(c, put)]
  {
    hide Parse;
    assert [put][..0] == [];
    assert Kept(c, [put][..0]) == map[] && Log(c, [put][..0]) == map[];
    assert Unexpired(map[], put.now) == map[];
  }
}
