// The karma ledger of the legacy command handlers: per-guild karma rows and
// per-guild announce settings, with ModKarma, CheckKarma, SetAnnounce and
// the Top/Bot boards. The database is a keyed store, modelled as two maps.
module Ledger {
  import opened Subjects
  import opened Args

  type GuildId = string

  /** The unique key of a karma row: (GuildID, Name). */
  datatype Key = Key(guild: GuildId, name: string)

  /** One row of a board, as listed to the channel. */
  datatype Row = Row(name: string, karma: int)

  /** The sort direction board passes to the query: "asc" or "desc". */
  datatype Order = Ascending | Descending

  /** What ModKarma sends: nothing, or one "<name> has <n> karma." line per
      changed name (the lines' order is Go map order, so only the set of
      lines is kept, as a map from name to new karma). */
  datatype KarmaReply = Silent | Announced(karma: map<string, int>)

  /** What SetAnnounce sends: a thumbs-up reaction, or the usage reply. */
  datatype AnnounceReply = ThumbsUp | Usage

  /** The karma a name has in a guild: its row's value, 0 without a row. */
  function Balance(entries: map<Key, int>, k: Key): int
  {
    if k in entries then entries[k] else 0
  }

  /** The ledger's invariant: no row holds karma 0. */
  ghost predicate NoZeroRows(entries: map<Key, int>)
  {
    forall k :: k in entries ==> entries[k] != 0
  }

  /** In a store without zero rows, a reported karma of 0 means the name
      has no row. */
  lemma ReportedZeroIsNoRow(entries: map<Key, int>, guild: GuildId, reply: map<string, int>)
    requires NoZeroRows(entries)
    requires forall n :: n in reply ==> reply[n] == Balance(entries, Key(guild, n))
    ensures forall n :: n in reply ==> (reply[n] == 0 <==> Key(guild, n) !in entries)
  {
  }

  /** The NoAnnounce flag of a guild; a guild without a config row has the
      default, false. */
  function NoAnnounce(config: map<GuildId, bool>, guild: GuildId): bool
  {
    guild in config && config[guild]
  }

  // ---------------------------------------------------------------------
  // Applying net deltas

  /** A row ModKarma writes: one of the guild whose name has a nonzero
      net delta. */
  predicate Touched(guild: GuildId, deltas: map<string, int>, k: Key)
  {
    k.guild == guild && k.name in deltas && deltas[k.name] != 0
  }

  /** Some name has a nonzero net delta, so ModKarma changes something. */
  ghost predicate Changes(deltas: map<string, int>)
  {
    exists n :: n in deltas && deltas[n] != 0
  }

  /** The keys of the rows ModKarma writes. */
  function Targets(guild: GuildId, deltas: map<string, int>): (r: set<Key>)
    ensures forall k :: k in r <==> Touched(guild, deltas, k)
  {
    var r := set n | n in deltas && deltas[n] != 0 :: Key(guild, n);
    assert forall k :: Touched(guild, deltas, k) ==> k == Key(guild, k.name) && k in r;
    r
  }

  /** The karma of `k` once its net delta is added (0 for a missing row). */
  function Bumped(entries: map<Key, int>, guild: GuildId, deltas: map<string, int>, k: Key): int
  {
    Balance(entries, k) + (if k.guild == guild && k.name in deltas then deltas[k.name] else 0)
  }

  /** Whether `k` has a row after ModKarma: a written row is kept unless its
      karma became exactly 0; any other row is left as it is. */
  predicate Stored(entries: map<Key, int>, guild: GuildId, deltas: map<string, int>, k: Key)
  {
    if Touched(guild, deltas, k) then Bumped(entries, guild, deltas, k) != 0 else k in entries
  }

  /** The store after ModKarma applies the net deltas to a guild. */
  ghost function ApplyDeltas(entries: map<Key, int>, guild: GuildId, deltas: map<string, int>): map<Key, int>
  {
    map k | k in entries.Keys + Targets(guild, deltas) && Stored(entries, guild, deltas, k)
      :: Bumped(entries, guild, deltas, k)
  }

  /** The new karma of every changed name: what ModKarma announces. */
  ghost function NewBalances(entries: map<Key, int>, guild: GuildId, deltas: map<string, int>): map<string, int>
  {
    map n | n in deltas && deltas[n] != 0 :: Balance(entries, Key(guild, n)) + deltas[n]
  }

  /** After ModKarma every karma is the old one (0 if absent) plus the net
      delta of its name in that guild, and a row exists exactly when it was
      not written and existed before, or was written with a nonzero result. */
  lemma ApplyDeltasBalance(entries: map<Key, int>, guild: GuildId, deltas: map<string, int>, k: Key)
    ensures Balance(ApplyDeltas(entries, guild, deltas), k)
         == Balance(entries, k) + (if k.guild == guild && k.name in deltas then deltas[k.name] else 0)
    ensures k in ApplyDeltas(entries, guild, deltas) <==>
              if Touched(guild, deltas, k) then Balance(entries, k) + deltas[k.name] != 0 else k in entries
  {
  }

  /** Rows of other guilds and of names whose net delta is 0 are not
      written: present before exactly when present after, with the same
      karma. */
  lemma ApplyDeltasFrame(entries: map<Key, int>, guild: GuildId, deltas: map<string, int>, k: Key)
    requires !Touched(guild, deltas, k)
    ensures k in ApplyDeltas(entries, guild, deltas) <==> k in entries
    ensures k in entries ==> ApplyDeltas(entries, guild, deltas)[k] == entries[k]
  {
  }

  /** ApplyDeltas is the only store with those balances and rows: any map
      that agrees with it key by key is it. */
  lemma ApplyDeltasUnique(entries: map<Key, int>, guild: GuildId, deltas: map<string, int>, r: map<Key, int>)
    requires forall k :: (k in r <==> Stored(entries, guild, deltas, k))
    requires forall k :: k in r ==> r[k] == Bumped(entries, guild, deltas, k)
    ensures r == ApplyDeltas(entries, guild, deltas)
  {
    var a := ApplyDeltas(entries, guild, deltas);
    assert forall k :: k in r <==> k in a;
  }

  /** ModKarma keeps the ledger free of zero rows. */
  lemma ApplyDeltasNoZeroRows(entries: map<Key, int>, guild: GuildId, deltas: map<string, int>)
    requires NoZeroRows(entries)
    ensures NoZeroRows(ApplyDeltas(entries, guild, deltas))
  {
  }

  /** Net deltas that are all 0 leave the store as it was, however often
      they are applied. */
  lemma ApplyZeroDeltas(entries: map<Key, int>, guild: GuildId, deltas: map<string, int>)
    requires !Changes(deltas)
    ensures ApplyDeltas(entries, guild, deltas) == entries
  {
    assert forall k :: !Touched(guild, deltas, k);
  }

  /** "alice++ alice--" nets to 0: no row is written and nothing is
      announced. */
  lemma CancellingBumpChangesNothing(entries: map<Key, int>, guild: GuildId)
    ensures var d := NetDeltas([Subject("alice", 2), Subject("alice", -2)]);
            !Changes(d) && ApplyDeltas(entries, guild, d) == entries
  {
    var subs := [Subject("alice", 2), Subject("alice", -2)];
    assert ResolveName(subs[0].name) == "alice" && ResolveName(subs[1].name) == "alice";
    assert ResolvedNames(subs) == {"alice"};
    assert subs[..1] == [Subject("alice", 2)];
    assert SumFor(subs, "alice") == 0;
    ApplyZeroDeltas(entries, guild, NetDeltas(subs));
  }

  /** Something is announced exactly when some net delta is nonzero. */
  lemma AnnouncesIffChanges(entries: map<Key, int>, guild: GuildId, deltas: map<string, int>)
    ensures Changes(deltas) <==> NewBalances(entries, guild, deltas) != map[]
  {
    if Changes(deltas) {
      var n :| n in deltas && deltas[n] != 0;
      assert n in NewBalances(entries, guild, deltas);
    }
    if NewBalances(entries, guild, deltas) != map[] {
      var n :| n in NewBalances(entries, guild, deltas);
    }
  }

  /** The state of ModKarma's loop: the rows of the names already done
      (those not `pending`) are written, the others are as at the start. */
  ghost predicate WrittenSoFar(start: map<Key, int>, entries: map<Key, int>, guild: GuildId,
                               deltas: map<string, int>, pending: set<string>)
  {
    forall k ::
      if Touched(guild, deltas, k) && k.name !in pending
      then (k in entries <==> Bumped(start, guild, deltas, k) != 0)
           && (k in entries ==> entries[k] == Bumped(start, guild, deltas, k))
      else (k in entries <==> k in start) && (k in entries ==> entries[k] == start[k])
  }

  /** The replies gathered by ModKarma's loop: the new karma of each name
      already done whose net delta is nonzero. */
  ghost predicate AnnouncedSoFar(start: map<Key, int>, lines: map<string, int>, guild: GuildId,
                                 deltas: map<string, int>, pending: set<string>)
  {
    && (forall n :: n in lines <==> n in deltas && deltas[n] != 0 && n !in pending)
    && (forall n :: n in lines ==> lines[n] == Balance(start, Key(guild, n)) + deltas[n])
  }

  lemma AnnounceOne(start: map<Key, int>, lines: map<string, int>, guild: GuildId,
                    deltas: map<string, int>, pending: set<string>, n: string, karma: int)
    requires AnnouncedSoFar(start, lines, guild, deltas, pending)
    requires n in pending && n in deltas
    requires karma == Balance(start, Key(guild, n)) + deltas[n]
    ensures AnnouncedSoFar(start, if deltas[n] == 0 then lines else lines[n := karma],
                           guild, deltas, pending - {n})
  {
  }

  lemma AllAnnounced(start: map<Key, int>, lines: map<string, int>, guild: GuildId,
                     deltas: map<string, int>)
    requires AnnouncedSoFar(start, lines, guild, deltas, {})
    ensures lines == NewBalances(start, guild, deltas)
  {
  }

  /** One turn of ModKarma's loop on a pending name: its row is read (0 if
      absent), bumped, then deleted at 0 and saved otherwise. */
  lemma WriteOne(start: map<Key, int>, entries: map<Key, int>, guild: GuildId,
                 deltas: map<string, int>, pending: set<string>, n: string)
    requires WrittenSoFar(start, entries, guild, deltas, pending)
    requires n in pending && n in deltas
    ensures var k := Key(guild, n);
            var karma := Balance(entries, k) + deltas[n];
            && karma == Bumped(start, guild, deltas, k)
            && WrittenSoFar(start,
                 if deltas[n] == 0 then entries else if karma == 0 then entries - {k} else entries[k := karma],
                 guild, deltas, pending - {n})
  {
  }

  // ---------------------------------------------------------------------
  // Boards

  /** Whether karma `a` may be listed before karma `b`. */
  predicate Ranks(order: Order, a: int, b: int)
  {
    match order
    case Descending => a >= b
    case Ascending => a <= b
  }

  /** The names that have a row in the guild. */
  function GuildNames(entries: map<Key, int>, guild: GuildId): set<string>
  {
    set k | k in entries && k.guild == guild :: k.name
  }

  lemma GuildNamesHaveRows(entries: map<Key, int>, guild: GuildId, n: string)
    ensures n in GuildNames(entries, guild) <==> Key(guild, n) in entries
  {
    if n in GuildNames(entries, guild) {
      var k :| k in entries && k.guild == guild && k.name == n;
      assert k == Key(guild, n);
    }
  }

  function Min(a: int, b: int): int
  {
    if a <= b then a else b
  }

  /** What the query `ORDER BY karma <order> LIMIT limit` over the guild's
      rows may return: min(limit, number of rows) rows of the guild, no name
      twice, in order, and no row left out ranks before a row listed. Rows
      of equal karma may come in any order. */
  ghost predicate IsBoard(entries: map<Key, int>, guild: GuildId, order: Order, limit: int, rows: seq<Row>)
  {
    && |rows| == Min(limit, |GuildNames(entries, guild)|)
    && (forall i :: 0 <= i < |rows| ==>
          Key(guild, rows[i].name) in entries && entries[Key(guild, rows[i].name)] == rows[i].karma)
    && (forall i, j :: 0 <= i < j < |rows| ==> rows[i].name != rows[j].name)
    && (forall i, j :: 0 <= i < j < |rows| ==> Ranks(order, rows[i].karma, rows[j].karma))
    && (forall i, n :: 0 <= i < |rows| && n in GuildNames(entries, guild)
          && (forall j :: 0 <= j < |rows| ==> rows[j].name != n)
          ==> Ranks(order, rows[i].karma, Balance(entries, Key(guild, n))))
  }

  /** Ranks is a total preorder: what ranks before a name that ranks
      before `c` ranks before `c`, and of two karmas one ranks first. */
  lemma RanksStep(order: Order, a: int, b: int, c: int)
    ensures Ranks(order, a, b) || Ranks(order, b, a)
    ensures Ranks(order, a, b) && Ranks(order, b, c) ==> Ranks(order, a, c)
  {
  }

  /** Every nonempty set of names has one that ranks first. */
  lemma {:induction false} FirstExists(entries: map<Key, int>, guild: GuildId, order: Order, pool: set<string>)
    requires pool != {}
    ensures exists n :: n in pool && forall m :: m in pool ==>
              Ranks(order, Balance(entries, Key(guild, n)), Balance(entries, Key(guild, m)))
    decreases |pool|
  {
    var x :| x in pool;
    var bx := Balance(entries, Key(guild, x));
    if pool == {x} {
      assert forall m :: m in pool ==> m == x;
      assert forall m :: m in pool ==> Ranks(order, bx, Balance(entries, Key(guild, m)));
    } else {
      var rest := pool - {x};
      FirstExists(entries, guild, order, rest);
      var y :| y in rest && forall m :: m in rest ==>
                 Ranks(order, Balance(entries, Key(guild, y)), Balance(entries, Key(guild, m)));
      var ky := Balance(entries, Key(guild, y));
      RanksStep(order, ky, bx, bx);
      var best := if Ranks(order, ky, bx) then y else x;
      var bb := Balance(entries, Key(guild, best));
      forall m | m in pool
        ensures Ranks(order, bb, Balance(entries, Key(guild, m)))
      {
        var bm := Balance(entries, Key(guild, m));
        if m == x {
          RanksStep(order, bb, bx, bx);
        } else {
          assert m in rest;
          RanksStep(order, bb, ky, bm);
        }
      }
    }
  }

  /** Leaderboard(2) over {a: 5, b: 3, c: 5} lists the two rows of karma 5. */
  lemma TopTwoOfThree(rows: seq<Row>)
    requires IsBoard(map[Key("g", "a") := 5, Key("g", "b") := 3, Key("g", "c") := 5],
                     "g", Descending, 2, rows)
    ensures |rows| == 2 && rows[0].karma == 5 && rows[1].karma == 5
  {
    var e := map[Key("g", "a") := 5, Key("g", "b") := 3, Key("g", "c") := 5];
    assert GuildNames(e, "g") == {"a", "b", "c"} by {
      GuildNamesHaveRows(e, "g", "a");
      GuildNamesHaveRows(e, "g", "b");
      GuildNamesHaveRows(e, "g", "c");
    }
    assert |rows| == 2;
    assert Key("g", rows[0].name) in e && Key("g", rows[1].name) in e;
    assert rows[0].name != rows[1].name;
    // a name of karma 5 left out would rank before rows[1]
    assert "a" != rows[0].name && "a" != rows[1].name ==> rows[1].karma >= 5;
    assert "c" != rows[0].name && "c" != rows[1].name ==> rows[1].karma >= 5;
    assert rows[0].karma >= rows[1].karma;
  }

  /** The state of board's selection: `rows` lists, in order, the best
      names of `all` no longer in `pool`, and every name still in `pool`
      ranks after each of them. */
  ghost predicate Listed(entries: map<Key, int>, guild: GuildId, order: Order,
                         all: set<string>, pool: set<string>, rows: seq<Row>)
  {
    && all == GuildNames(entries, guild)
    && pool <= all
    && |rows| + |pool| == |all|
    && (forall i :: 0 <= i < |rows| ==>
          Key(guild, rows[i].name) in entries && entries[Key(guild, rows[i].name)] == rows[i].karma
          && rows[i].name !in pool)
    && (forall n :: n in all && (forall j :: 0 <= j < |rows| ==> rows[j].name != n) ==> n in pool)
    && (forall i, j :: 0 <= i < j < |rows| ==> rows[i].name != rows[j].name)
    && (forall i, j :: 0 <= i < j < |rows| ==> Ranks(order, rows[i].karma, rows[j].karma))
    && (forall i, n :: 0 <= i < |rows| && n in pool ==>
          Ranks(order, rows[i].karma, Balance(entries, Key(guild, n))))
  }

  /** Moving a first-ranking name from the pool to the end of the rows. */
  lemma ListNext(entries: map<Key, int>, guild: GuildId, order: Order,
                 all: set<string>, pool: set<string>, rows: seq<Row>, n: string)
    requires Listed(entries, guild, order, all, pool, rows)
    requires n in pool
    requires forall m :: m in pool ==>
               Ranks(order, Balance(entries, Key(guild, n)), Balance(entries, Key(guild, m)))
    ensures Key(guild, n) in entries
    ensures Listed(entries, guild, order, all, pool - {n}, rows + [Row(n, entries[Key(guild, n)])])
  {
    GuildNamesHaveRows(entries, guild, n);
    var rows' := rows + [Row(n, entries[Key(guild, n)])];
    forall m | m in all && (forall j :: 0 <= j < |rows'| ==> rows'[j].name != m)
      ensures m in pool - {n}
    {
      assert rows'[|rows|].name != m;
      assert forall j :: 0 <= j < |rows| ==> rows'[j] == rows[j];
    }
  }

  /** When the limit is reached or the pool is empty, the rows are a board. */
  lemma ListedIsBoard(entries: map<Key, int>, guild: GuildId, order: Order, limit: int,
                      all: set<string>, pool: set<string>, rows: seq<Row>)
    requires Listed(entries, guild, order, all, pool, rows)
    requires |rows| <= limit && (|rows| == limit || pool == {})
    ensures IsBoard(entries, guild, order, limit, rows)
  {
  }

  // ---------------------------------------------------------------------
  // The store

  class Store {
    /** The karma rows, keyed by (GuildID, Name). */
    var entries: map<Key, int>
    /** The config rows: NoAnnounce per guild. */
    var config: map<GuildId, bool>

    ghost predicate Valid()
      reads this
    {
      NoZeroRows(entries)
    }

    constructor ()
      ensures entries == map[] && config == map[]
      ensures Valid()
    {
      entries := map[];
      config := map[];
    }

    /** ModKarma: applies the message's net deltas to the guild's rows, then
        announces the new karma of every changed name unless the guild has
        NoAnnounce set. The guild's config row is created (NoAnnounce
        false) when it is missing and something changed. */
    method ModKarma(guild: GuildId, subjects: seq<Subject>) returns (reply: KarmaReply)
      modifies this
      ensures entries == ApplyDeltas(old(entries), guild, NetDeltas(subjects))
      ensures old(Valid()) ==> Valid()
      ensures config == if Changes(NetDeltas(subjects)) && guild !in old(config)
                        then old(config)[guild := false] else old(config)
      ensures reply == if Changes(NetDeltas(subjects)) && !NoAnnounce(old(config), guild)
                       then Announced(NewBalances(old(entries), guild, NetDeltas(subjects)))
                       else Silent
    {
      var deltas := MarshalSubjects(subjects);
      var lines := WriteDeltas(guild, deltas);
      if old(Valid()) {
        ApplyDeltasNoZeroRows(old(entries), guild, deltas);
      }
      AnnouncesIffChanges(old(entries), guild, deltas);
      if lines == map[] {
        return Silent;
      }
      if guild !in config {
        config := config[guild := false];
      }
      if !config[guild] {
        reply := Announced(lines);
      } else {
        reply := Silent;
      }
    }

    /** The loop of ModKarma: for each name with a nonzero net delta, reads
        or creates its row, adds the delta, deletes the row at 0 and saves it
        otherwise; returns the new karma of each such name. */
    method WriteDeltas(guild: GuildId, deltas: map<string, int>) returns (lines: map<string, int>)
      modifies this`entries
      ensures entries == ApplyDeltas(old(entries), guild, deltas)
      ensures lines == NewBalances(old(entries), guild, deltas)
    {
      var pending := deltas.Keys;
      lines := map[];
      while pending != {}
        invariant pending <= deltas.Keys
        invariant WrittenSoFar(old(entries), entries, guild, deltas, pending)
        invariant AnnouncedSoFar(old(entries), lines, guild, deltas, pending)
        decreases |pending|
      {
        var n :| n in pending;
        WriteOne(old(entries), entries, guild, deltas, pending, n);
        var k := Key(guild, n);
        var karma := if k in entries then entries[k] else 0;
        karma := karma + deltas[n];
        AnnounceOne(old(entries), lines, guild, deltas, pending, n, karma);
        if deltas[n] != 0 {
          lines := lines[n := karma];
          if karma == 0 {
            entries := entries - {k};
          } else {
            entries := entries[k := karma];
          }
        }
        pending := pending - {n};
      }
      ApplyDeltasUnique(old(entries), guild, deltas, entries);
      AllAnnounced(old(entries), lines, guild, deltas);
    }

    /** CheckKarma: the karma of every name the message mentions, 0 for a
        name without a row. Reads the store only. */
    method CheckKarma(guild: GuildId, subjects: seq<Subject>) returns (reply: map<string, int>)
      ensures reply.Keys == ResolvedNames(subjects)
      ensures forall n :: n in reply ==> reply[n] == Balance(entries, Key(guild, n))
      ensures Valid() ==> forall n :: n in reply ==> (reply[n] == 0 <==> Key(guild, n) !in entries)
    {
      var names := MarshalSubjects(subjects);
      reply := LookUp(guild, names.Keys);
      if Valid() {
        ReportedZeroIsNoRow(entries, guild, reply);
      }
    }

    /** The loop of CheckKarma: looks up each name's row in the guild, 0
        when there is none. */
    method LookUp(guild: GuildId, names: set<string>) returns (reply: map<string, int>)
      ensures reply.Keys == names
      ensures forall n :: n in reply ==> reply[n] == Balance(entries, Key(guild, n))
    {
      var pending := names;
      reply := map[];
      while pending != {}
        invariant pending <= names
        invariant reply.Keys == names - pending
        invariant forall n :: n in reply ==> reply[n] == Balance(entries, Key(guild, n))
        decreases |pending|
      {
        var n :| n in pending;
        var k := Key(guild, n);
        var karma := if k in entries then entries[k] else 0;
        reply := reply[n := karma];
        pending := pending - {n};
      }
    }

    /** SetAnnounce: "on"/"yes" clears NoAnnounce and "off"/"no" sets it,
        creating the guild's config row if needed, and both are
        acknowledged with a reaction; any other text changes nothing and
        gets the usage reply. */
    method SetAnnounce(guild: GuildId, text: string) returns (reply: AnnounceReply)
      modifies this
      ensures entries == old(entries)
      ensures AnnounceSetting(text) == None ==> reply == Usage && config == old(config)
      ensures AnnounceSetting(text).Some? ==>
                reply == ThumbsUp && config == old(config)[guild := !AnnounceSetting(text).value]
    {
      var on: bool;
      match AnnounceSetting(text) {
        case None =>
          return Usage;
        case Some(setting) =>
          on := setting;
      }
      if guild !in config {
        config := config[guild := false];
      }
      config := config[guild := !on];
      reply := ThumbsUp;
    }

    /** board: the guild's rows in the given order, as many as the limit
        read from the text asks for. */
    method Board(guild: GuildId, text: string, order: Order) returns (rows: seq<Row>)
      ensures IsBoard(entries, guild, order, ParseLimit(text), rows)
    {
      var limit := ParseLimit(text);
      var pool := GuildNames(entries, guild);
      ghost var all := pool;
      rows := [];
      while |rows| < limit && pool != {}
        invariant |rows| <= limit
        invariant Listed(entries, guild, order, all, pool, rows)
        decreases |pool|
      {
        FirstExists(entries, guild, order, pool);
        var n :| n in pool && forall m :: m in pool ==>
                   Ranks(order, Balance(entries, Key(guild, n)), Balance(entries, Key(guild, m)));
        ListNext(entries, guild, order, all, pool, rows, n);
        rows := rows + [Row(n, entries[Key(guild, n)])];
        pool := pool - {n};
      }
      ListedIsBoard(entries, guild, order, limit, all, pool, rows);
    }

    /** Top: the board in descending order of karma. */
    method Top(guild: GuildId, text: string) returns (rows: seq<Row>)
      ensures IsBoard(entries, guild, Descending, ParseLimit(text), rows)
    {
      rows := Board(guild, text, Descending);
    }

    /** Bot: the board in ascending order of karma. */
    method Bot(guild: GuildId, text: string) returns (rows: seq<Row>)
      ensures IsBoard(entries, guild, Ascending, ParseLimit(text), rows)
    {
      rows := Board(guild, text, Ascending);
    }
  }

  /** A single "alice++" nets +1 for alice. */
  lemma SingleBump()
    ensures NetDeltas([Subject("alice", 1)]) == map["alice" := 1]
    ensures Changes(NetDeltas([Subject("alice", 1)]))
  {
    var subs := [Subject("alice", 1)];
    assert ResolveName(subs[0].name) == "alice";
    assert ResolvedNames(subs) == {"alice"};
    assert subs[..0] == [];
    assert SumFor(subs, "alice") == 1;
    assert "alice" in NetDeltas(subs);
  }

  /** Turning announcements off silences ModKarma without stopping it, and
      turning them back on makes the next ModKarma announce the new karma. */
  method AnnounceGating() returns (quiet: KarmaReply, loud: KarmaReply)
    ensures quiet == Silent
    ensures loud == Announced(map["alice" := 2])
  {
    var store := new Store();
    var ack := store.SetAnnounce("guild", "off");
    AnnounceWords("");
    assert "off" + "" == "off" && "on" + "" == "on";
    SingleBump();
    quiet := store.ModKarma("guild", [Subject("alice", 1)]);
    ApplyDeltasBalance(map[], "guild", map["alice" := 1], Key("guild", "alice"));
    assert Balance(store.entries, Key("guild", "alice")) == 1;
    ack := store.SetAnnounce("guild", "on");
    BumpAgain(store.entries);
    loud := store.ModKarma("guild", [Subject("alice", 1)]);
  }

  /** A second "alice++" on a karma of 1 announces 2. */
  lemma BumpAgain(entries: map<Key, int>)
    requires Balance(entries, Key("guild", "alice")) == 1
    ensures NewBalances(entries, "guild", map["alice" := 1]) == map["alice" := 2]
  {
    var b := NewBalances(entries, "guild", map["alice" := 1]);
    assert "alice" in b && b.Keys == {"alice"};
  }
}
