/**
 The endpoint index of the connection editor. Every socket that declares a port is filed under
 its endpoint text; the sending and receiving sockets of one endpoint are then paired. The
 index is a join: it finds exactly the pairs a comparison of every two sockets would find.
 */
module EndpointIndex {
  import opened Text
  import opened Wrappers

  /** One entry of a data port table; a missing field is None. The port as it is printed. */
  datatype Info = Info(port: Option<string>, host: Option<string>, transport: Option<string>,
                       socketType: Option<string>)

  /** A bundle file; its data port table in the order of the file, if it has one. */
  datatype Bundle = Bundle(filename: string, dataport: Option<seq<(string, Info)>>)

  datatype Socket = Socket(component: string, name: string, info: Info, filename: string)

  datatype Connection = Connection(source: Socket, target: Socket, portKey: string)

  function GetOr(o: Option<string>, default: string): string { if o.Some? then o.value else default }

  /** The endpoint text of a socket that declares a port. */
  function KeyOf(info: Info): string {
    GetOr(info.transport, "tcp") + "://" + GetOr(info.host, "127.0.0.1") + ":" + GetOr(info.port, "")
  }

  predicate Sends(s: Socket) { s.info.socketType == Some("pub") || s.info.socketType == Some("push") }

  predicate Receives(s: Socket) { s.info.socketType == Some("sub") || s.info.socketType == Some("pull") }

  function WithoutJson(name: string): string {
    if |name| < 5 then name
    else if name[..5] == ".json" then WithoutJson(name[5..])
    else [name[0]] + WithoutJson(name[1..])
  }

  // ----- The declared sockets, in order -----

  function SocketsOf(filename: string, table: seq<(string, Info)>): seq<Socket> {
    if table == [] then []
    else
      var (name, info) := table[|table| - 1];
      SocketsOf(filename, table[..|table| - 1])
      + if info.port.Some? then [Socket(WithoutJson(filename), name, info, filename)] else []
  }

  function Declared(bundles: seq<Bundle>): seq<Socket> {
    if bundles == [] then []
    else
      var b := bundles[|bundles| - 1];
      Declared(bundles[..|bundles| - 1]) + if b.dataport.Some? then SocketsOf(b.filename, b.dataport.value) else []
  }

  // ----- The quadratic definition -----

  predicate Matches(a: Socket, b: Socket) {
    Sends(a) && Receives(b) && KeyOf(a.info) == KeyOf(b.info)
  }

  function PairsOf(a: Socket, targets: seq<Socket>): seq<Connection> {
    if targets == [] then []
    else
      var b := targets[|targets| - 1];
      PairsOf(a, targets[..|targets| - 1]) + if Matches(a, b) then [Connection(a, b, KeyOf(a.info))] else []
  }

  /** Every source against every target. */
  function Pairs(sources: seq<Socket>, targets: seq<Socket>): seq<Connection> {
    if sources == [] then [] else Pairs(sources[..|sources| - 1], targets) + PairsOf(sources[|sources| - 1], targets)
  }

  // ----- The index -----

  /** The keys in the order of their first socket. */
  function Keys(sockets: seq<Socket>): seq<string> {
    if sockets == [] then []
    else
      var keys, k := Keys(sockets[..|sockets| - 1]), KeyOf(sockets[|sockets| - 1].info);
      if k in keys then keys else keys + [k]
  }

  function Filter(p: Socket -> bool, sockets: seq<Socket>): seq<Socket> {
    if sockets == [] then []
    else
      var s := sockets[|sockets| - 1];
      Filter(p, sockets[..|sockets| - 1]) + if p(s) then [s] else []
  }

  function HasKey(k: string): Socket -> bool { (s: Socket) => KeyOf(s.info) == k }

  function Group(sockets: seq<Socket>, k: string): seq<Socket> { Filter(HasKey(k), sockets) }

  function Row(k: string, a: Socket, targets: seq<Socket>): seq<Connection> {
    if targets == [] then [] else Row(k, a, targets[..|targets| - 1]) + [Connection(a, targets[|targets| - 1], k)]
  }

  function Cross(k: string, sources: seq<Socket>, targets: seq<Socket>): seq<Connection> {
    if sources == [] then []
    else Cross(k, sources[..|sources| - 1], targets) + Row(k, sources[|sources| - 1], targets)
  }

  function Linked(k: string, group: seq<Socket>): seq<Connection> {
    if |group| < 2 then [] else Cross(k, Filter(Sends, group), Filter(Receives, group))
  }

  function Joined(sockets: seq<Socket>, keys: seq<string>): seq<Connection> {
    if keys == [] then []
    else
      var k := keys[|keys| - 1];
      Joined(sockets, keys[..|keys| - 1]) + Linked(k, Group(sockets, k))
  }

  class ConnectionEditor {
    var bundleConfigs: seq<Bundle>
    var connections: seq<Connection>

    constructor (bundleConfigs: seq<Bundle>)
      ensures this.bundleConfigs == bundleConfigs && connections == []
    {
      this.bundleConfigs, connections := bundleConfigs, [];
    }

    method AnalyzeConnections()
      modifies this`connections
      ensures connections == Joined(Declared(bundleConfigs), Keys(Declared(bundleConfigs)))
      ensures multiset(connections) == multiset(Pairs(Declared(bundleConfigs), Declared(bundleConfigs)))
    {
      connections := [];
      var order, portMap := BuildPortMap();
      ghost var sockets := Declared(bundleConfigs);
      assert Joined(sockets, order[..0]) == [];
      hide Joined, Declared, Keys, Pairs, PairsOf, Cross, Row, Group, Filter, KeyOf, Sends, Receives;
      for n := 0 to |order|
        invariant connections == Joined(sockets, order[..n])
      {
        JoinedSnoc(sockets, order, n);
        var key := order[n];
        var group := portMap[key];
        if |group| >= 2 {
          AddConnections(key, Filter(Sends, group), Filter(Receives, group));
        }
      }
      assert order[..|order|] == order;
      IndexIsJoin(sockets);
    }

    method BuildPortMap() returns (order: seq<string>, portMap: map<string, seq<Socket>>)
      ensures Indexed(Declared(bundleConfigs), order, portMap)
    {
      order, portMap := [], map[];
      for n := 0 to |bundleConfigs|
        invariant Indexed(Declared(bundleConfigs[..n]), order, portMap)
      {
        assert bundleConfigs[..n + 1][..n] == bundleConfigs[..n];
        var bundle := bundleConfigs[n];
        if bundle.dataport.Some? {
          order, portMap := FileSockets(bundle.filename, bundle.dataport.value, order, portMap,
              Declared(bundleConfigs[..n]));
        } else {
          assert Declared(bundleConfigs[..n + 1]) == Declared(bundleConfigs[..n]);
        }
      }
      assert bundleConfigs[..|bundleConfigs|] == bundleConfigs;
    }

    method FileSockets(filename: string, table: seq<(string, Info)>, order0: seq<string>,
                       portMap0: map<string, seq<Socket>>, ghost before: seq<Socket>)
      returns (order: seq<string>, portMap: map<string, seq<Socket>>)
      requires Indexed(before, order0, portMap0)
      ensures Indexed(before + SocketsOf(filename, table), order, portMap)
    {
      order, portMap := order0, portMap0;
      ghost var done := before;
      for m := 0 to |table|
        invariant done == before + SocketsOf(filename, table[..m])
        invariant Indexed(done, order, portMap)
      {
        var (name, info) := table[m];
        SocketsOfSnoc(before, filename, table, m);
        if info.port.Some? {
          var socket := Socket(WithoutJson(filename), name, info, filename);
          order, portMap := FileSocket(socket, order, portMap, done);
          done := done + [socket];
        }
      }
      assert table[..|table|] == table;
    }

    method FileSocket(socket: Socket, order0: seq<string>, portMap0: map<string, seq<Socket>>,
                      ghost before: seq<Socket>)
      returns (order: seq<string>, portMap: map<string, seq<Socket>>)
      requires Indexed(before, order0, portMap0)
      ensures Indexed(before + [socket], order, portMap)
    {
      order, portMap := order0, portMap0;
      var key := KeyOf(socket.info);
      if key !in portMap {
        order, portMap := order + [key], portMap[key := []];
      }
      portMap := portMap[key := portMap[key] + [socket]];
      IndexedSnoc(before, order0, portMap0, socket);
    }

    method AddConnections(key: string, publishers: seq<Socket>, subscribers: seq<Socket>)
      modifies this`connections
      ensures connections == old(connections) + Cross(key, publishers, subscribers)
    {
      for i := 0 to |publishers|
        invariant connections == old(connections) + Cross(key, publishers[..i], subscribers)
      {
        assert publishers[..i + 1][..i] == publishers[..i];
        ghost var before := connections;
        for j := 0 to |subscribers|
          invariant connections == before + Row(key, publishers[i], subscribers[..j])
        {
          assert subscribers[..j + 1][..j] == subscribers[..j];
          connections := connections + [Connection(publishers[i], subscribers[j], key)];
        }
        assert subscribers[..|subscribers|] == subscribers;
      }
      assert publishers[..|publishers|] == publishers;
    }
  }

  lemma JoinedSnoc(sockets: seq<Socket>, keys: seq<string>, n: nat)
    requires n < |keys|
    ensures Joined(sockets, keys[..n + 1]) == Joined(sockets, keys[..n]) + Linked(keys[n], Group(sockets, keys[n]))
  {
    assert keys[..n + 1][..n] == keys[..n];
  }

  lemma SocketsOfSnoc(before: seq<Socket>, filename: string, table: seq<(string, Info)>, m: nat)
    requires m < |table|
    ensures var (name, info) := table[m];
            var done := before + SocketsOf(filename, table[..m]);
            before + SocketsOf(filename, table[..m + 1])
            == if info.port.Some? then done + [Socket(WithoutJson(filename), name, info, filename)] else done
  {
    assert table[..m + 1][..m] == table[..m];
  }

  /** The dictionary holds every group, under the keys in the order they were put in. */
  ghost predicate Indexed(sockets: seq<Socket>, order: seq<string>, portMap: map<string, seq<Socket>>) {
    && order == Keys(sockets)
    && (forall k :: k in order <==> k in portMap)
    && forall k :: k in portMap ==> portMap[k] == Group(sockets, k)
  }

  lemma {:induction false} GroupEmpty(sockets: seq<Socket>, k: string)
    ensures Group(sockets, k) == [] <==> k !in Keys(sockets)
  {
    if sockets != [] {
      GroupEmpty(sockets[..|sockets| - 1], k);
    }
  }

  lemma IndexedSnoc(sockets: seq<Socket>, order: seq<string>, portMap: map<string, seq<Socket>>, s: Socket)
    requires Indexed(sockets, order, portMap)
    ensures var k := KeyOf(s.info);
            && Indexed(sockets + [s], if k in portMap then order else order + [k],
                       portMap[k := (if k in portMap then portMap[k] else []) + [s]])
  {
    var all := sockets + [s];
    assert all[..|sockets|] == sockets;
    GroupEmpty(sockets, KeyOf(s.info));
    forall k ensures Group(all, k) == Group(sockets, k) + if KeyOf(s.info) == k then [s] else [] {
    }
  }

  // ----- How often a connection is found -----

  lemma CountSnoc<T>(s: seq<T>, x: T, y: T)
    ensures multiset(s + [x])[y] == multiset(s)[y] + if x == y then 1 else 0
  {
  }

  lemma CountLast<T>(s: seq<T>, y: T)
    requires s != []
    ensures multiset(s)[y] == multiset(s[..|s| - 1])[y] + if s[|s| - 1] == y then 1 else 0
  {
    CountSnoc(s[..|s| - 1], s[|s| - 1], y);
    assert s == s[..|s| - 1] + [s[|s| - 1]];
  }

  lemma CountAppend<T>(s: seq<T>, t: seq<T>, y: T)
    ensures multiset(s + t)[y] == multiset(s)[y] + multiset(t)[y]
  {
  }

  /** The product, by repeated addition. */
  function Times(m: nat, n: nat): nat { if m == 0 then 0 else Times(m - 1, n) + n }

  lemma TimesSnoc(s: seq<Socket>, x: Socket, y: Socket, n: nat)
    ensures Times(multiset(s + [x])[y], n) == Times(multiset(s)[y], n) + if x == y then n else 0
  {
    CountSnoc(s, x, y);
  }

  lemma {:induction false} TimesZero(m: nat)
    ensures Times(m, 0) == 0
  {
    if m != 0 {
      TimesZero(m - 1);
    }
  }

  lemma {:induction false} FilterCount(p: Socket -> bool, sockets: seq<Socket>, s: Socket)
    ensures multiset(Filter(p, sockets))[s] == if p(s) then multiset(sockets)[s] else 0
  {
    if sockets != [] {
      var before := sockets[..|sockets| - 1];
      FilterCount(p, before, s);
      assert sockets == before + [sockets[|sockets| - 1]];
    }
  }

  lemma {:induction false} RowCount(k: string, a: Socket, targets: seq<Socket>, c: Connection)
    ensures multiset(Row(k, a, targets))[c]
         == if c.portKey == k && c.source == a then multiset(targets)[c.target] else 0
  {
    if targets != [] {
      var before := targets[..|targets| - 1];
      RowCount(k, a, before, c);
      assert targets == before + [targets[|targets| - 1]];
    }
  }

  lemma {:induction false} CrossCount(k: string, sources: seq<Socket>, targets: seq<Socket>, c: Connection)
    ensures multiset(Cross(k, sources, targets))[c]
         == if c.portKey == k then Times(multiset(sources)[c.source], multiset(targets)[c.target]) else 0
  {
    if sources != [] {
      var before, a := sources[..|sources| - 1], sources[|sources| - 1];
      CrossCount(k, before, targets, c);
      RowCount(k, a, targets, c);
      hide Row, Times;
      CountAppend(Cross(k, before, targets), Row(k, a, targets), c);
      assert sources == before + [a];
      TimesSnoc(before, a, c.source, multiset(targets)[c.target]);
    }
  }

  lemma PairsOfLast(a: Socket, targets: seq<Socket>)
    requires targets != []
    ensures var before, b := targets[..|targets| - 1], targets[|targets| - 1];
            PairsOf(a, targets)
            == if Matches(a, b) then PairsOf(a, before) + [Connection(a, b, KeyOf(a.info))] else PairsOf(a, before)
  {
  }

  predicate Right(c: Connection) { Matches(c.source, c.target) && c.portKey == KeyOf(c.source.info) }

  lemma PairsOfLastCount(a: Socket, targets: seq<Socket>, c: Connection)
    requires targets != []
    ensures var before, b := targets[..|targets| - 1], targets[|targets| - 1];
            multiset(PairsOf(a, targets))[c]
            == multiset(PairsOf(a, before))[c] + if Right(c) && c.source == a && c.target == b then 1 else 0
  {
    PairsOfLast(a, targets);
    hide PairsOf, KeyOf;
    var before, b := targets[..|targets| - 1], targets[|targets| - 1];
    if Matches(a, b) {
      CountSnoc(PairsOf(a, before), Connection(a, b, KeyOf(a.info)), c);
    }
  }

  lemma {:induction false} PairsOfCount(a: Socket, targets: seq<Socket>, c: Connection)
    ensures multiset(PairsOf(a, targets))[c]
         == if c.source == a && Right(c) then multiset(targets)[c.target] else 0
  {
    if targets != [] {
      hide PairsOf, Right;
      PairsOfCount(a, targets[..|targets| - 1], c);
      PairsOfLastCount(a, targets, c);
      CountLast(targets, c.target);
    }
  }

  lemma {:induction false} PairsCount(sources: seq<Socket>, targets: seq<Socket>, c: Connection)
    ensures multiset(Pairs(sources, targets))[c]
         == if Right(c) then Times(multiset(sources)[c.source], multiset(targets)[c.target]) else 0
  {
    if sources != [] {
      var before, a := sources[..|sources| - 1], sources[|sources| - 1];
      PairsCount(before, targets, c);
      PairsOfCount(a, targets, c);
      hide PairsOf, Right, KeyOf, Times;
      CountAppend(Pairs(before, targets), PairsOf(a, targets), c);
      assert sources == before + [a];
      TimesSnoc(before, a, c.source, multiset(targets)[c.target]);
    }
  }

  /** A group of fewer than two sockets is skipped, and no pair is lost by it. */
  lemma SmallGroupsHoldNoPair(k: string, group: seq<Socket>)
    ensures Linked(k, group) == Cross(k, Filter(Sends, group), Filter(Receives, group))
  {
    if |group| == 1 {
      assert group[..0] == [];
      assert Filter(Sends, group) == [] || Filter(Receives, group) == [];
      assert Filter(Sends, group) == if Sends(group[0]) then [group[0]] else [];
      assert Filter(Receives, group) == [] ==> Row(k, group[0], []) == [];
    }
  }

  lemma LinkedCount(sockets: seq<Socket>, k: string, c: Connection)
    ensures multiset(Linked(k, Group(sockets, k)))[c]
         == if c.portKey == k && Right(c) then Times(multiset(sockets)[c.source], multiset(sockets)[c.target]) else 0
  {
    var group := Group(sockets, k);
    SmallGroupsHoldNoPair(k, group);
    CrossCount(k, Filter(Sends, group), Filter(Receives, group), c);
    FilterCount(Sends, group, c.source);
    FilterCount(Receives, group, c.target);
    FilterCount(HasKey(k), sockets, c.source);
    FilterCount(HasKey(k), sockets, c.target);
    TimesZero(multiset(sockets)[c.source]);
  }

  lemma {:induction false} KeysFact(sockets: seq<Socket>)
    ensures Distinct(Keys(sockets))
    ensures forall s :: s in sockets ==> KeyOf(s.info) in Keys(sockets)
  {
    if sockets != [] {
      KeysFact(sockets[..|sockets| - 1]);
    }
  }

  lemma {:induction false} JoinedCount(sockets: seq<Socket>, keys: seq<string>, c: Connection, w: nat)
    requires Distinct(keys)
    requires forall k {:trigger Linked(k, Group(sockets, k))} ::
               multiset(Linked(k, Group(sockets, k)))[c] == if c.portKey == k then w else 0
    ensures multiset(Joined(sockets, keys))[c] == if c.portKey in keys then w else 0
  {
    if keys != [] {
      var before, k := keys[..|keys| - 1], keys[|keys| - 1];
      JoinedCount(sockets, before, c, w);
      assert keys == before + [k] && k !in before;
      CountAppend(Joined(sockets, before), Linked(k, Group(sockets, k)), c);
    }
  }

  /** The connections found through the index are those of the quadratic definition, each as often. */
  lemma {:induction false} IndexIsJoin(sockets: seq<Socket>)
    ensures multiset(Joined(sockets, Keys(sockets))) == multiset(Pairs(sockets, sockets))
  {
    KeysFact(sockets);
    forall c: Connection ensures multiset(Joined(sockets, Keys(sockets)))[c] == multiset(Pairs(sockets, sockets))[c] {
      var w := if Right(c) then Times(multiset(sockets)[c.source], multiset(sockets)[c.target]) else 0;
      forall k ensures multiset(Linked(k, Group(sockets, k)))[c] == if c.portKey == k then w else 0 {
        LinkedCount(sockets, k, c);
      }
      JoinedCount(sockets, Keys(sockets), c, w);
      PairsCount(sockets, sockets, c);
      if c.source !in sockets {
        assert multiset(sockets)[c.source] == 0;
      }
    }
  }

  // ----- Each once -----

  /** Dictionaries: file names are distinct, and so are the socket names of a file. */
  ghost predicate Dictionaries(bundles: seq<Bundle>) {
    && (forall i, j :: 0 <= i < j < |bundles| ==> bundles[i].filename != bundles[j].filename)
    && forall b :: b in bundles && b.dataport.Some? ==>
         forall i, j :: 0 <= i < j < |b.dataport.value| ==> b.dataport.value[i].0 != b.dataport.value[j].0
  }

  /** The sockets of a table are its entries that declare a port. */
  lemma {:induction false} SocketsIn(filename: string, table: seq<(string, Info)>, s: Socket)
    ensures s in SocketsOf(filename, table) <==>
              && (s.name, s.info) in table && s.info.port.Some?
              && s == Socket(WithoutJson(filename), s.name, s.info, filename)
  {
    if table != [] {
      var before, last := table[..|table| - 1], table[|table| - 1];
      SocketsIn(filename, before, s);
      assert (s.name, s.info) in table <==> (s.name, s.info) in before || (s.name, s.info) == last by {
        assert table == before + [last];
      }
    }
  }

  lemma {:induction false} SocketsDistinct(filename: string, table: seq<(string, Info)>)
    requires forall i, j :: 0 <= i < j < |table| ==> table[i].0 != table[j].0
    ensures Distinct(SocketsOf(filename, table))
  {
    if table != [] {
      var before, last := table[..|table| - 1], table[|table| - 1];
      SocketsDistinct(filename, before);
      var own := Socket(WithoutJson(filename), last.0, last.1, filename);
      SocketsIn(filename, before, own);
      assert own !in SocketsOf(filename, before);
    }
  }

  lemma {:induction false} SocketsOfFact(filename: string, table: seq<(string, Info)>)
    requires forall i, j :: 0 <= i < j < |table| ==> table[i].0 != table[j].0
    ensures Distinct(SocketsOf(filename, table))
    ensures forall s :: s in SocketsOf(filename, table) <==>
              && (s.name, s.info) in table && s.info.port.Some?
              && s == Socket(WithoutJson(filename), s.name, s.info, filename)
  {
    SocketsDistinct(filename, table);
    hide SocketsOf;
    forall s ensures s in SocketsOf(filename, table) <==>
      (s.name, s.info) in table && s.info.port.Some? && s == Socket(WithoutJson(filename), s.name, s.info, filename)
    {
      SocketsIn(filename, table, s);
    }
  }

  lemma {:induction false} DeclaredFact(bundles: seq<Bundle>)
    requires Dictionaries(bundles)
    ensures Distinct(Declared(bundles))
    ensures forall s :: s in Declared(bundles) ==> exists b <- bundles :: b.filename == s.filename
  {
    if bundles != [] {
      var before, b := bundles[..|bundles| - 1], bundles[|bundles| - 1];
      assert bundles == before + [b];
      DeclaredFact(before);
      if b.dataport.Some? {
        SocketsOfFact(b.filename, b.dataport.value);
      }
    }
  }

  /** Exactly the entries of the data port tables that declare a port are declared sockets. */
  lemma {:induction false} DeclaredExactly(bundles: seq<Bundle>, s: Socket)
    ensures s in Declared(bundles) <==>
              exists b <- bundles ::
                b.dataport.Some? && (s.name, s.info) in b.dataport.value && s.info.port.Some?
                && s == Socket(WithoutJson(b.filename), s.name, s.info, b.filename)
  {
    if bundles != [] {
      var before, b := bundles[..|bundles| - 1], bundles[|bundles| - 1];
      assert bundles == before + [b];
      DeclaredExactly(before, s);
      if b.dataport.Some? {
        SocketsIn(b.filename, b.dataport.value, s);
      }
      hide SocketsOf, WithoutJson;
    }
  }

  lemma JsonHere(b: string)
    ensures WithoutJson(".json" + b) == WithoutJson(b)
  {
    assert (".json" + b)[..5] == ".json" && (".json" + b)[5..] == b;
  }

  lemma NoJsonHere(c: char, t: string)
    requires c != '.'
    ensures WithoutJson([c] + t) == [c] + WithoutJson(t)
  {
    var u := [c] + t;
    assert u[1..] == t;
    if |u| >= 5 {
      assert u[..5][0] == c && ".json"[0] == '.';
    }
  }

  /** Every ".json" is cut out of a file name, wherever it stands. */
  lemma {:induction false} JsonCutOut(a: string, b: string)
    requires '.' !in a
    ensures WithoutJson(a + ".json" + b) == a + WithoutJson(b) && WithoutJson(a) == a
  {
    if a == "" {
      JsonHere(b);
      assert "" + ".json" + b == ".json" + b && "" + WithoutJson(b) == WithoutJson(b);
    } else {
      hide WithoutJson;
      var c, rest := a[0], a[1..];
      JsonCutOut(rest, b);
      NoJsonHere(c, rest);
      NoJsonHere(c, rest + ".json" + b);
      assert a == [c] + rest;
      Cons(c, rest, ".json");
      Cons(c, rest + ".json", b);
      Cons(c, rest, WithoutJson(b));
    }
  }

  lemma Cons(c: char, a: string, b: string)
    ensures [c] + a + b == [c] + (a + b)
  {
  }

  lemma {:induction false} DistinctCount<T>(s: seq<T>, x: T)
    requires Distinct(s)
    ensures multiset(s)[x] == if x in s then 1 else 0
  {
    if s != [] {
      var before := s[..|s| - 1];
      DistinctCount(before, x);
      assert s == before + [s[|s| - 1]];
    }
  }

  /**
   Every publisher or pusher and every subscriber or puller with the same endpoint text are
   connected, exactly once, and nothing else is.
   */
  lemma {:induction false} EachPairOnce(bundles: seq<Bundle>, c: Connection)
    requires Dictionaries(bundles)
    ensures var d := Declared(bundles);
            multiset(Joined(d, Keys(d)))[c]
            == if && c.source in d && c.target in d
                  && (c.source.info.socketType == Some("pub") || c.source.info.socketType == Some("push"))
                  && (c.target.info.socketType == Some("sub") || c.target.info.socketType == Some("pull"))
                  && KeyOf(c.source.info) == KeyOf(c.target.info) == c.portKey
               then 1 else 0
  {
    var d := Declared(bundles);
    DeclaredFact(bundles);
    IndexIsJoin(d);
    PairsCount(d, d, c);
    DistinctCount(d, c.source);
    DistinctCount(d, c.target);
  }

  // ----- In which order -----

  /** a stands before b. */
  ghost predicate Precedes<T>(s: seq<T>, a: T, b: T) {
    exists i, j :: 0 <= i < j < |s| && s[i] == a && s[j] == b
  }

  lemma PrecedesLater<T>(s: seq<T>, n: nat, a: T, b: T)
    requires n <= |s| && Precedes(s[..n], a, b)
    ensures Precedes(s, a, b)
  {
    var i, j :| 0 <= i < j < n && s[..n][i] == a && s[..n][j] == b;
    assert s[i] == a && s[j] == b;
  }

  lemma PrecedesLast<T>(s: seq<T>, n: nat, a: T)
    requires n < |s| && a in s[..n]
    ensures Precedes(s, a, s[n])
  {
    var i :| 0 <= i < n && s[..n][i] == a;
    assert s[i] == a;
  }

  lemma {:induction false} FilterIn(p: Socket -> bool, sockets: seq<Socket>, s: Socket)
    ensures s in Filter(p, sockets) <==> s in sockets && p(s)
  {
    if sockets != [] {
      var before := sockets[..|sockets| - 1];
      FilterIn(p, before, s);
      assert sockets == before + [sockets[|sockets| - 1]];
    }
  }

  /** Filtering keeps the order. */
  lemma {:induction false} FilterOrder(p: Socket -> bool, sockets: seq<Socket>, a: Socket, b: Socket)
    requires Precedes(Filter(p, sockets), a, b)
    ensures Precedes(sockets, a, b)
  {
    var n := |sockets| - 1;
    var before, last := sockets[..n], sockets[n];
    var f := Filter(p, sockets);
    var i, j :| 0 <= i < j < |f| && f[i] == a && f[j] == b;
    if j < |Filter(p, before)| {
      assert Filter(p, before)[i] == a && Filter(p, before)[j] == b;
      FilterOrder(p, before, a, b);
      PrecedesLater(sockets, n, a, b);
    } else {
      assert Filter(p, before)[i] == a;
      FilterIn(p, before, a);
      PrecedesLast(sockets, n, a);
    }
  }

  /** Connections of one endpoint: by sender, then by receiver. */
  ghost predicate Ranked(sources: seq<Socket>, targets: seq<Socket>, a: Connection, b: Connection) {
    Precedes(sources, a.source, b.source) || (a.source == b.source && Precedes(targets, a.target, b.target))
  }

  lemma {:induction false} RowAt(k: string, a: Socket, targets: seq<Socket>)
    ensures |Row(k, a, targets)| == |targets|
    ensures forall i :: 0 <= i < |targets| ==> Row(k, a, targets)[i] == Connection(a, targets[i], k)
  {
    if targets != [] {
      RowAt(k, a, targets[..|targets| - 1]);
    }
  }

  lemma {:induction false} CrossFrom(k: string, sources: seq<Socket>, targets: seq<Socket>, i: nat)
    requires i < |Cross(k, sources, targets)|
    ensures Cross(k, sources, targets)[i].source in sources
  {
    var n := |sources| - 1;
    RowAt(k, sources[n], targets);
    if i < |Cross(k, sources[..n], targets)| {
      CrossFrom(k, sources[..n], targets, i);
    }
  }

  lemma {:induction false} CrossOrder(k: string, sources: seq<Socket>, targets: seq<Socket>, i: nat, j: nat)
    requires i < j < |Cross(k, sources, targets)|
    ensures Ranked(sources, targets, Cross(k, sources, targets)[i], Cross(k, sources, targets)[j])
  {
    var n := |sources| - 1;
    var before, last := sources[..n], sources[n];
    var c, m := Cross(k, sources, targets), |Cross(k, before, targets)|;
    RowAt(k, last, targets);
    if j < m {
      CrossOrder(k, before, targets, i, j);
      if Precedes(before, c[i].source, c[j].source) {
        PrecedesLater(sources, n, c[i].source, c[j].source);
      }
    } else if i < m {
      CrossFrom(k, before, targets, i);
      PrecedesLast(sources, n, c[i].source);
    } else {
      assert targets[i - m] == c[i].target && targets[j - m] == c[j].target;
    }
  }

  /** Within one group of the index. */
  lemma LinkedOrder(k: string, sockets: seq<Socket>, i: nat, j: nat)
    requires i < j < |Linked(k, Group(sockets, k))|
    ensures Ranked(sockets, sockets, Linked(k, Group(sockets, k))[i], Linked(k, Group(sockets, k))[j])
  {
    var group := Group(sockets, k);
    var sources, targets := Filter(Sends, group), Filter(Receives, group);
    CrossOrder(k, sources, targets, i, j);
    var a, b := Cross(k, sources, targets)[i], Cross(k, sources, targets)[j];
    if Precedes(sources, a.source, b.source) {
      FilterOrder(Sends, group, a.source, b.source);
      FilterOrder(HasKey(k), sockets, a.source, b.source);
    } else {
      FilterOrder(Receives, group, a.target, b.target);
      FilterOrder(HasKey(k), sockets, a.target, b.target);
    }
  }

  lemma {:induction false} CrossKey(k: string, sources: seq<Socket>, targets: seq<Socket>, i: nat)
    requires i < |Cross(k, sources, targets)|
    ensures Cross(k, sources, targets)[i].portKey == k
  {
    var n := |sources| - 1;
    RowAt(k, sources[n], targets);
    if i < |Cross(k, sources[..n], targets)| {
      CrossKey(k, sources[..n], targets, i);
    }
  }

  lemma LinkedKey(k: string, sockets: seq<Socket>, i: nat)
    requires i < |Linked(k, Group(sockets, k))|
    ensures Linked(k, Group(sockets, k))[i].portKey == k
  {
    var group := Group(sockets, k);
    CrossKey(k, Filter(Sends, group), Filter(Receives, group), i);
  }

  /** The last key's connections come after those of the keys before. */
  lemma JoinedLast(sockets: seq<Socket>, keys: seq<string>)
    ensures keys == [] ==> Joined(sockets, keys) == []
    ensures keys != [] ==>
              var n := |keys| - 1;
              Joined(sockets, keys) == Joined(sockets, keys[..n]) + Linked(keys[n], Group(sockets, keys[n]))
  {
  }

  lemma {:induction false} JoinedKey(sockets: seq<Socket>, keys: seq<string>, i: nat)
    requires i < |Joined(sockets, keys)|
    ensures Joined(sockets, keys)[i].portKey in keys
  {
    hide Joined, Linked, Group, KeyOf;
    JoinedLast(sockets, keys);
    var n := |keys| - 1;
    var first, last := Joined(sockets, keys[..n]), Linked(keys[n], Group(sockets, keys[n]));
    assert keys == keys[..n] + [keys[n]];
    if i < |first| {
      assert (first + last)[i] == first[i];
      JoinedKey(sockets, keys[..n], i);
    } else {
      assert (first + last)[i] == last[i - |first|];
      LinkedKey(keys[n], sockets, i - |first|);
    }
  }

  lemma {:induction false} JoinedOrder(sockets: seq<Socket>, keys: seq<string>, i: nat, j: nat)
    requires i < j < |Joined(sockets, keys)|
    ensures var a, b := Joined(sockets, keys)[i], Joined(sockets, keys)[j];
            Precedes(keys, a.portKey, b.portKey) || (a.portKey == b.portKey && Ranked(sockets, sockets, a, b))
  {
    hide Joined, Linked, Group, Ranked, Precedes, KeyOf;
    JoinedLast(sockets, keys);
    var n := |keys| - 1;
    var first, last := Joined(sockets, keys[..n]), Linked(keys[n], Group(sockets, keys[n]));
    var m, a, b := |first|, (first + last)[i], (first + last)[j];
    if j < m {
      assert a == first[i] && b == first[j];
      JoinedOrder(sockets, keys[..n], i, j);
      if Precedes(keys[..n], a.portKey, b.portKey) {
        PrecedesLater(keys, n, a.portKey, b.portKey);
      }
    } else {
      assert b == last[j - m];
      LinkedKey(keys[n], sockets, j - m);
      if i < m {
        assert a == first[i];
        JoinedKey(sockets, keys[..n], i);
        PrecedesLast(keys, n, a.portKey);
      } else {
        assert a == last[i - m];
        LinkedKey(keys[n], sockets, i - m);
        LinkedOrder(keys[n], sockets, i - m, j - m);
      }
    }
  }

  /** Socket m has key k, and none up to it has key l. */
  ghost predicate ComesFirst(sockets: seq<Socket>, m: nat, k: string, l: string) {
    m < |sockets| && KeyOf(sockets[m].info) == k && forall i :: 0 <= i <= m ==> KeyOf(sockets[i].info) != l
  }

  lemma ComesFirstLater(sockets: seq<Socket>, n: nat, m: nat, k: string, l: string)
    requires n <= |sockets| && ComesFirst(sockets[..n], m, k, l)
    ensures ComesFirst(sockets, m, k, l)
  {
    hide KeyOf;
    assert forall i :: 0 <= i <= m ==> sockets[i] == sockets[..n][i];
  }

  lemma ComesFirstAmong(sockets: seq<Socket>, k: string, l: string)
    requires k in Keys(sockets) && l !in Keys(sockets)
    ensures exists m: nat :: ComesFirst(sockets, m, k, l)
  {
    KeysFact(sockets);
    KeysFrom(sockets, k);
    hide Keys, KeyOf;
    var s :| s in sockets && KeyOf(s.info) == k;
    var m: nat :| m < |sockets| && sockets[m] == s;
    assert forall i :: 0 <= i <= m ==> sockets[i] in sockets;
    assert ComesFirst(sockets, m, k, l);
  }

  /** Keys stand in the order in which their first sockets do. */
  lemma {:induction false} KeysOrder(sockets: seq<Socket>, k: string, l: string)
    requires Precedes(Keys(sockets), k, l)
    ensures exists m: nat :: ComesFirst(sockets, m, k, l)
  {
    KeysLast(sockets, k, l);
    hide Keys, Precedes, ComesFirst;
    var n := |sockets| - 1;
    var before := sockets[..n];
    if Precedes(Keys(before), k, l) {
      KeysOrder(before, k, l);
    } else {
      ComesFirstAmong(before, k, l);
    }
    var m: nat :| ComesFirst(before, m, k, l);
    ComesFirstLater(sockets, n, m, k, l);
  }

  /** Two keys stand as they did before the last socket came, or it is the first of the later one. */
  lemma KeysLast(sockets: seq<Socket>, k: string, l: string)
    requires Precedes(Keys(sockets), k, l)
    ensures sockets != []
    ensures var keys := Keys(sockets[..|sockets| - 1]); Precedes(keys, k, l) || (k in keys && l !in keys)
  {
    hide Keys, KeyOf;
    KeysUnfold(sockets);
    var keys, x := Keys(sockets[..|sockets| - 1]), KeyOf(sockets[|sockets| - 1].info);
    if x !in keys {
      PrecedesSnoc(keys, x, k, l);
    }
  }

  lemma KeysUnfold(sockets: seq<Socket>)
    ensures sockets == [] ==> Keys(sockets) == []
    ensures sockets != [] ==>
              var keys, x := Keys(sockets[..|sockets| - 1]), KeyOf(sockets[|sockets| - 1].info);
              Keys(sockets) == if x in keys then keys else keys + [x]
  {
    hide KeyOf;
  }

  lemma PrecedesSnoc<T>(s: seq<T>, x: T, a: T, b: T)
    requires Precedes(s + [x], a, b)
    ensures Precedes(s, a, b) || (a in s && b == x)
  {
    var i, j :| 0 <= i < j < |s| + 1 && (s + [x])[i] == a && (s + [x])[j] == b;
    assert s[i] == a;
    assert j < |s| ==> s[j] == b;
  }

  lemma {:induction false} KeysFrom(sockets: seq<Socket>, k: string)
    requires k in Keys(sockets)
    ensures exists s <- sockets :: KeyOf(s.info) == k
  {
    var n := |sockets| - 1;
    assert sockets == sockets[..n] + [sockets[n]];
    if k in Keys(sockets[..n]) {
      KeysFrom(sockets[..n], k);
    }
  }

  /**
   The connections come in the order of the first socket of their endpoint, then of the senders, then
   of the receivers.
   */
  lemma {:induction false} ConnectionsInOrder(sockets: seq<Socket>, i: nat, j: nat)
    requires i < j < |Joined(sockets, Keys(sockets))|
    ensures var a, b := Joined(sockets, Keys(sockets))[i], Joined(sockets, Keys(sockets))[j];
            if a.portKey == b.portKey then Ranked(sockets, sockets, a, b)
            else exists m: nat :: ComesFirst(sockets, m, a.portKey, b.portKey)
  {
    var a, b := Joined(sockets, Keys(sockets))[i], Joined(sockets, Keys(sockets))[j];
    KeysFact(sockets);
    JoinedOrder(sockets, Keys(sockets), i, j);
    hide Joined, Keys, Ranked, Precedes, ComesFirst;
    if Precedes(Keys(sockets), a.portKey, b.portKey) {
      KeysOrder(sockets, a.portKey, b.portKey);
    }
  }

  // ----- What the endpoint text tells -----

  predicate PlainInfo(info: Info) {
    ':' !in GetOr(info.transport, "tcp") && info.port.Some? && ':' !in info.port.value
  }

  lemma EndpointText(t: string, h: string, p: string)
    ensures t + "://" + h + ":" + p == t + ":" + ("//" + h + ":" + p)
  {
    assert "://" == ":" + "//";
  }

  lemma EndpointTells(t: string, h: string, p: string, t2: string, h2: string, p2: string)
    requires ':' !in t && ':' !in t2 && ':' !in p && ':' !in p2
    requires t + "://" + h + ":" + p == t2 + "://" + h2 + ":" + p2
    ensures t == t2 && h == h2 && p == p2
  {
    EndpointText(t, h, p);
    EndpointText(t2, h2, p2);
    FirstSeparator(t, t2, "//" + h + ":" + p, "//" + h2 + ":" + p2, ':');
    LastSeparator("//" + h, "//" + h2, p, p2, ':');
    assert ("//" + h)[2..] == h && ("//" + h2)[2..] == h2;
  }

  /** Equal texts mean equal transport, host and port, the defaults filled in, whatever the hosts are. */
  lemma {:induction false} KeyTellsEndpoint(a: Info, b: Info)
    requires PlainInfo(a) && PlainInfo(b)
    ensures KeyOf(a) == KeyOf(b) <==>
            && GetOr(a.transport, "tcp") == GetOr(b.transport, "tcp")
            && GetOr(a.host, "127.0.0.1") == GetOr(b.host, "127.0.0.1") && a.port == b.port
  {
    if KeyOf(a) == KeyOf(b) {
      EndpointTells(GetOr(a.transport, "tcp"), GetOr(a.host, "127.0.0.1"), a.port.value,
                    GetOr(b.transport, "tcp"), GetOr(b.host, "127.0.0.1"), b.port.value);
    }
  }

  /**
   A publisher bound to every interface is written with host "*". It is connected exactly with the
   subscribers of the same transport and port that are written with "*" too: never with one that
   names the host it connects to, though the sockets do meet.
   */
  lemma {:induction false} WildcardBindIsMissed(bundles: seq<Bundle>, c: Connection)
    requires Dictionaries(bundles) && PlainInfo(c.source.info) && PlainInfo(c.target.info)
    requires c.source.info.host == Some("*")
    ensures var d, a, b := Declared(bundles), c.source.info, c.target.info;
            c in Joined(d, Keys(d)) <==>
              && c.source in d && c.target in d && Sends(c.source) && Receives(c.target) && c.portKey == KeyOf(a)
              && GetOr(a.transport, "tcp") == GetOr(b.transport, "tcp") && a.port == b.port && b.host == Some("*")
  {
    EachPairOnce(bundles, c);
    KeyTellsEndpoint(c.source.info, c.target.info);
    assert "127.0.0.1"[0] == '1';
  }
}
