/**
 * The server pool of pkg/golb/golb.go: an append-only sequence of upstream
 * servers, each with a liveness flag, and a round-robin cursor. Selection
 * starts one past the cursor and scans circularly for the first alive server.
 *
 * A server is identified by its position in the pool, which is what the
 * source's `*Server` pointers amount to: servers are never removed.
 */
module Pool {
  import opened Common

  /** One upstream target. The reverse proxy bound to it is modelled in module Proxy. */
  datatype Server = Server(name: string, url: Url, alive: bool)

  /** The pool: servers in insertion order and the shared cursor `curr`. */
  datatype ServerPool = ServerPool(servers: seq<Server>, curr: nat)

  /** The result of `Next`: the pool with its updated cursor, and the chosen server (nil = None). */
  datatype Selection = Selection(pool: ServerPool, peer: Option<nat>)

  /** What `ServeHTTP` does with a request before any forwarding happens. */
  datatype Decision =
    | ProxyTo(server: nat)   // hand the request to this server's reverse proxy
    | Unavailable            // write 503 Service Unavailable
    | EmptyPoolPanic         // `NextIndex` divides by `len(Servers) == 0`

  /** A pool that has just been declared: `&ServerPool{}`. */
  const EmptyPool := ServerPool([], 0)

  predicate NoneAlive(servers: seq<Server>) {
    forall i :: 0 <= i < |servers| ==> !servers[i].alive
  }

  predicate AllAlive(servers: seq<Server>) {
    forall i :: 0 <= i < |servers| ==> servers[i].alive
  }

  /** Go's `i % n` for the loop counter of `Next`, which stays below `2 * n`. */
  function Wrap(i: nat, n: nat): (r: nat)
    requires 0 < n && i < 2 * n
    ensures r == i % n && r < n
  {
    if i < n then ModOfMultiplePlus(0, i, n); i
    else ModOfMultiplePlus(1, i - n, n); i - n
  }

  /** Liveness of the server at circular position `j` of a scan. */
  predicate AliveAt(servers: seq<Server>, j: nat)
    requires 0 < |servers| && j < 2 * |servers|
  {
    servers[Wrap(j, |servers|)].alive
  }

  /** `j` is the first alive circular position in `[start, start + len)`. */
  predicate FirstAliveAt(servers: seq<Server>, start: nat, j: nat)
    requires start < |servers|
  {
    && start <= j < start + |servers|
    && AliveAt(servers, j)
    && forall k :: start <= k < j ==> !AliveAt(servers, k)
  }

  /** Servers are equal except for their liveness flags. */
  predicate SameServersUpToLiveness(a: seq<Server>, b: seq<Server>) {
    && |a| == |b|
    && forall i :: 0 <= i < |a| ==> a[i].name == b[i].name && a[i].url == b[i].url
  }

  /** The indices of the servers currently alive. */
  function LiveIn(servers: seq<Server>): set<nat> {
    set j: nat | j < |servers| && servers[j].alive
  }

  /** `Server.IsAlive` on the server at index `i`. */
  function IsAlive(sp: ServerPool, i: nat): (r: bool)
    requires i < |sp.servers|
    ensures r <==> i in LiveIn(sp.servers)
  {
    sp.servers[i].alive
  }

  /** `Server.SetAlive`: changes the one flag and nothing else. */
  function SetAlive(sp: ServerPool, i: nat, alive: bool): (r: ServerPool)
    requires i < |sp.servers|
    ensures SameServersUpToLiveness(sp.servers, r.servers)
    ensures IsAlive(r, i) == alive
    ensures r.curr == sp.curr
    ensures forall j :: 0 <= j < |sp.servers| && j != i ==> r.servers[j] == sp.servers[j]
    ensures LiveIn(r.servers) == if alive then LiveIn(sp.servers) + {i} else LiveIn(sp.servers) - {i}
  {
    sp.(servers := sp.servers[i := sp.servers[i].(alive := alive)])
  }

  /**
   * `AddServer`: on a parse error the pool is untouched and the error is
   * returned; otherwise exactly one alive server is appended.
   */
  function AddServer(sp: ServerPool, name: string, rawUrl: string, parse: UrlParser): (r: (ServerPool, Option<Error>))
    ensures parse(rawUrl).Err? ==> r.0 == sp && r.1 == Some(parse(rawUrl).error)
    ensures parse(rawUrl).Ok? ==>
      && r.1 == None
      && |r.0.servers| == |sp.servers| + 1
      && r.0.servers[|sp.servers|] == Server(name, parse(rawUrl).value, true)
      && (forall i :: 0 <= i < |sp.servers| ==> r.0.servers[i] == sp.servers[i])
      && r.0.curr == sp.curr
  {
    match parse(rawUrl)
    case Err(e) => (sp, Some(e))
    case Ok(u) => (sp.(servers := sp.servers + [Server(name, u, true)]), None)
  }

  /** `NextIndex`: bumps the cursor by one and reduces it modulo the pool size. */
  function NextIndex(sp: ServerPool): (r: (ServerPool, nat))
    requires |sp.servers| > 0
    ensures r.0.servers == sp.servers && r.0.curr == sp.curr + 1
    ensures r.1 < |sp.servers|
    ensures r.1 == r.0.curr % |sp.servers|
  {
    var sp' := sp.(curr := sp.curr + 1);
    (sp', sp'.curr % |sp.servers|)
  }

  /**
   * The loop of `Next`: `i` runs from `next` to `next + len - 1`; the result
   * is the loop counter at which an alive server was found.
   */
  function Scan(servers: seq<Server>, next: nat, i: nat): (r: Option<nat>)
    requires next < |servers|
    requires next <= i <= next + |servers|
    requires forall k :: next <= k < i ==> !AliveAt(servers, k)
    ensures r.Some? ==> FirstAliveAt(servers, next, r.value)
    ensures r.None? ==> forall k :: next <= k < next + |servers| ==> !AliveAt(servers, k)
    decreases next + |servers| - i
  {
    if i == next + |servers| then None
    else if AliveAt(servers, i) then Some(i)
    else Scan(servers, next, i + 1)
  }

  /** Every index of the pool is reached by a circular scan. */
  lemma ScanCoversPool(servers: seq<Server>, start: nat, i: nat)
    requires start < |servers| && i < |servers|
    ensures AliveAt(servers, if start <= i then i else i + |servers|) == servers[i].alive
  {
  }

  /** `(q * n + r) % n == r` for a remainder in range. */
  lemma ModOfMultiplePlus(q: nat, r: nat, n: nat)
    requires n > 0 && r < n
    ensures (q * n + r) % n == r
    ensures (q * n + r) / n == q
  {
    var x := q * n + r;
    var q', r' := x / n, x % n;
    assert x == q' * n + r';
    if q' < q {
      MulAtLeast(q - q', n);
    } else if q' > q {
      MulAtLeast(q' - q, n);
    }
  }

  lemma MulAtLeast(d: nat, n: nat)
    requires d >= 1
    ensures d * n >= n
  {
  }

  /**
   * `Next`: the first alive server in circular order starting at the index
   * `NextIndex` returns, or None when every server is dead. The cursor keeps
   * its incremented value unless servers were skipped, in which case it is
   * set to the chosen server's index.
   */
  function Next(sp: ServerPool): (r: Selection)
    requires |sp.servers| > 0
    ensures r.pool.servers == sp.servers
    ensures r.peer.Some? ==> r.peer.value < |sp.servers| && sp.servers[r.peer.value].alive
    ensures r.peer.None? <==> NoneAlive(sp.servers)
    ensures var start := (sp.curr + 1) % |sp.servers|;
      r.peer.Some? ==> exists j :: FirstAliveAt(sp.servers, start, j) && Wrap(j, |sp.servers|) == r.peer.value
    ensures var start := (sp.curr + 1) % |sp.servers|;
      && (sp.servers[start].alive ==> r.peer == Some(start) && r.pool.curr == sp.curr + 1)
      && (!sp.servers[start].alive && r.peer.Some? ==> r.pool.curr == r.peer.value)
      && (r.peer.None? ==> r.pool.curr == sp.curr + 1)
  {
    var n := |sp.servers|;
    var (sp', next) := NextIndex(sp);
    match Scan(sp.servers, next, next)
    case None =>
      assert NoneAlive(sp.servers) by {
        forall i | 0 <= i < n ensures !sp.servers[i].alive {
          ScanCoversPool(sp.servers, next, i);
        }
      }
      Selection(sp', None)
    case Some(i) =>
      var idx := Wrap(i, n);
      if i != next then Selection(sp'.(curr := idx), Some(idx))
      else Selection(sp', Some(idx))
  }

  /** Shifting two congruent starting points by the same offset keeps them congruent. */
  lemma ModShiftAgrees(a: nat, b: nat, d: nat, n: nat)
    requires n > 0 && b == a % n
    ensures (a + d) % n == (b + d) % n
  {
    var q := a / n;
    assert a == q * n + b;
    var e := (b + d) / n;
    var f := (b + d) % n;
    assert b + d == e * n + f;
    assert a + d == (q + e) * n + f;
    ModOfMultiplePlus(q + e, f, n);
  }

  /**
   * The dispatch decision of `ServeHTTP`: forward to the server `Next`
   * picks, or answer 503 when it returns nil. An empty pool makes
   * `NextIndex` divide by zero, after the atomic increment of the cursor has
   * already taken effect; the panic ends the request, not the pool.
   */
  function Dispatch(sp: ServerPool): (r: (ServerPool, Decision))
    ensures r.0.servers == sp.servers
    ensures r.0.curr == if |sp.servers| == 0 then sp.curr + 1 else Next(sp).pool.curr
    ensures r.1.EmptyPoolPanic? <==> |sp.servers| == 0
    ensures r.1.Unavailable? <==> |sp.servers| > 0 && NoneAlive(sp.servers)
    ensures r.1.ProxyTo? ==> r.1.server < |sp.servers| && sp.servers[r.1.server].alive
    ensures r.1.ProxyTo? ==> Next(sp).peer == Some(r.1.server)
  {
    if |sp.servers| == 0 then (sp.(curr := sp.curr + 1), EmptyPoolPanic)
    else
      var sel := Next(sp);
      match sel.peer
      case None => (sel.pool, Unavailable)
      case Some(i) => (sel.pool, ProxyTo(i))
  }

  /** The picks of `k` consecutive `Next` calls, and the pool after them. */
  datatype Rounds = Rounds(pool: ServerPool, picks: seq<Option<nat>>)

  function NextRounds(sp: ServerPool, k: nat): (r: Rounds)
    requires |sp.servers| > 0
    ensures r.pool.servers == sp.servers && |r.picks| == k
    decreases k
  {
    if k == 0 then Rounds(sp, [])
    else
      var sel := Next(sp);
      var rest := NextRounds(sel.pool, k - 1);
      Rounds(rest.pool, [sel.peer] + rest.picks)
  }

  /**
   * With every server alive, consecutive calls walk the pool in insertion
   * order from one past the cursor, and the cursor advances by one per call.
   */
  /** With every server alive, `Next` takes the first candidate and keeps the incremented cursor. */
  lemma AllAliveNext(sp: ServerPool)
    requires |sp.servers| > 0 && AllAlive(sp.servers)
    ensures Next(sp).pool.curr == sp.curr + 1 && Next(sp).peer == Some((sp.curr + 1) % |sp.servers|)
  {
    assert sp.servers[(sp.curr + 1) % |sp.servers|].alive;
  }

  lemma RoundRobinAllAlive(sp: ServerPool, k: nat)
    requires |sp.servers| > 0 && AllAlive(sp.servers)
    ensures var r := NextRounds(sp, k);
      && r.pool.curr == sp.curr + k
      && forall j :: 0 <= j < k ==> r.picks[j] == Some((sp.curr + 1 + j) % |sp.servers|)
  {
    RoundsRotate(sp, k);
    RoundsAdvance(sp, k);
  }

  /** `k` picks in round-robin order, the first one past cursor `c`, over `n` servers. */
  function Rotation(c: nat, n: nat, k: nat): (r: seq<Option<nat>>)
    requires n > 0
    ensures |r| == k
  {
    seq(k, j => Some((c + 1 + j) % n))
  }

  /** A rotation is its first pick followed by the rotation from the next cursor. */
  lemma RotationCons(c: nat, n: nat, k: nat)
    requires n > 0 && k > 0
    ensures Rotation(c, n, k) == [Some((c + 1) % n)] + Rotation(c + 1, n, k - 1)
  {
    var a := Rotation(c, n, k);
    var b := [Some((c + 1) % n)] + Rotation(c + 1, n, k - 1);
    forall j | 0 <= j < k
      ensures a[j] == b[j]
    {
      if j > 0 {
        assert b[j] == Rotation(c + 1, n, k - 1)[j - 1];
        assert c + 1 + 1 + (j - 1) == c + 1 + j;
      }
    }
  }

  /** The induction behind `RoundRobinAllAlive`'s picks, as an equation on whole sequences. */
  lemma {:induction false} RoundsRotate(sp: ServerPool, k: nat)
    requires |sp.servers| > 0 && AllAlive(sp.servers)
    decreases k
    ensures NextRounds(sp, k).picks == Rotation(sp.curr, |sp.servers|, k)
  {
    if k > 0 {
      var n := |sp.servers|;
      var sel := Next(sp);
      AllAliveNext(sp);
      assert sel.pool.servers == sp.servers && sel.pool.curr == sp.curr + 1;
      RoundsRotate(sel.pool, k - 1);
      var rest := NextRounds(sel.pool, k - 1).picks;
      assert rest == Rotation(sp.curr + 1, n, k - 1);
      RotationCons(sp.curr, n, k);
      assert NextRounds(sp, k).picks == [sel.peer] + rest;
      assert [sel.peer] + rest == [Some((sp.curr + 1) % n)] + Rotation(sp.curr + 1, n, k - 1);
    }
  }

  /** With every server alive, each of `k` calls raises the cursor by exactly one. */
  lemma {:induction false} RoundsAdvance(sp: ServerPool, k: nat)
    requires |sp.servers| > 0 && AllAlive(sp.servers)
    decreases k
    ensures NextRounds(sp, k).pool.curr == sp.curr + k
  {
    if k > 0 {
      var sel := Next(sp);
      AllAliveNext(sp);
      assert sel.pool.servers == sp.servers;
      RoundsAdvance(sel.pool, k - 1);
      assert NextRounds(sp, k).pool == NextRounds(sel.pool, k - 1).pool;
    }
  }

  /**
   * Fairness: with every server alive, `len` consecutive calls return every
   * server exactly once, in insertion order rotated to start one past the cursor.
   */
  lemma {:induction false} FairRound(sp: ServerPool)
    requires |sp.servers| > 0 && AllAlive(sp.servers)
    ensures var n := |sp.servers|;
      var picks := NextRounds(sp, n).picks;
      && (forall j :: 0 <= j < n ==> picks[j].Some? && picks[j].value < n)
      && (forall i :: 0 <= i < n ==> Some(i) in picks)
      && (forall j1, j2 :: 0 <= j1 < j2 < n ==> picks[j1] != picks[j2])
      && picks[0] == Some((sp.curr + 1) % n)
  {
    var n := |sp.servers|;
    var picks := NextRounds(sp, n).picks;
    RoundRobinAllAlive(sp, n);
    var s := (sp.curr + 1) % n;
    forall j | 0 <= j < n
      ensures picks[j] == Some(Wrap(s + j, n))
    {
      RotatedIndex(sp.curr + 1, j, n);
    }
    RotationVisitsEachOnce(picks, s, n);
  }

  /** A rotation of `0 .. n-1` holds every index exactly once. */
  lemma RotationVisitsEachOnce(picks: seq<Option<nat>>, s: nat, n: nat)
    requires s < n && |picks| == n
    requires forall j :: 0 <= j < n ==> picks[j] == Some(Wrap(s + j, n))
    ensures forall j :: 0 <= j < n ==> picks[j].Some? && picks[j].value < n
    ensures forall i :: 0 <= i < n ==> Some(i) in picks
    ensures forall j1, j2 :: 0 <= j1 < j2 < n ==> picks[j1] != picks[j2]
  {
    forall i | 0 <= i < n ensures Some(i) in picks {
      var j := if s <= i then i - s else i + n - s;
      assert picks[j] == Some(i);
    }
  }

  /** Position `j` of a rotation starting at `a`, written without `%`. */
  lemma RotatedIndex(a: nat, j: nat, n: nat)
    requires 0 < n && j < n
    ensures (a + j) % n == Wrap(a % n + j, n)
  {
    ModShiftAgrees(a, a % n, j, n);
  }

  /**
   * Liveness filtering: once the only alive server is marked dead, `Next`
   * returns nil, and keeps doing so on every later call.
   */
  lemma MarkingLastAliveDeadEmptiesSelection(sp: ServerPool, i: nat, k: nat)
    requires i < |sp.servers|
    requires forall j :: 0 <= j < |sp.servers| && j != i ==> !sp.servers[j].alive
    ensures forall j :: 0 <= j < k ==> NextRounds(SetAlive(sp, i, false), k).picks[j] == None
  {
    var sp' := SetAlive(sp, i, false);
    assert NoneAlive(sp'.servers) by {
      forall j | 0 <= j < |sp'.servers| ensures !sp'.servers[j].alive {
        if j != i {
          assert sp'.servers[j] == sp.servers[j];
        }
      }
    }
    NoneAliveRounds(sp', k);
  }

  /** With no server alive, every call of `Next` returns nil. */
  lemma {:induction false} NoneAliveRounds(sp: ServerPool, k: nat)
    requires |sp.servers| > 0 && NoneAlive(sp.servers)
    ensures forall j :: 0 <= j < k ==> NextRounds(sp, k).picks[j] == None
    decreases k
  {
    if k > 0 {
      var sel := Next(sp);
      var rest := NextRounds(sel.pool, k - 1);
      NoneAliveRounds(sel.pool, k - 1);
      assert NextRounds(sp, k).picks == [sel.peer] + rest.picks;
      forall j | 0 <= j < k ensures NextRounds(sp, k).picks[j] == None {
        if j > 0 {
          assert NextRounds(sp, k).picks[j] == rest.picks[j - 1];
        }
      }
    }
  }

  /**
   * The scenario of test/golb/golb_test.go: two servers added to a fresh pool;
   * with the second one down `Next` picks the first; with both up, ten calls
   * return both of them.
   */
  lemma TwoServerScenario(u1: Url, u2: Url, parse: UrlParser)
    requires parse("ts1") == Ok(u1) && parse("ts2") == Ok(u2)
    ensures var sp1 := AddServer(EmptyPool, "server1", "ts1", parse).0;
      var sp2 := AddServer(sp1, "server2", "ts2", parse).0;
      var down := SetAlive(SetAlive(sp2, 0, true), 1, false);
      var sel := Next(down);
      var up := SetAlive(sel.pool, 1, true);
      var ten := NextRounds(up, 10).picks;
      && sel.peer == Some(0) && sp2.servers[0].name == "server1"
      && Some(0) in ten && Some(1) in ten && None !in ten
  {
    var sp1 := AddServer(EmptyPool, "server1", "ts1", parse).0;
    var sp2 := AddServer(sp1, "server2", "ts2", parse).0;
    var down := SetAlive(SetAlive(sp2, 0, true), 1, false);
    assert |down.servers| == 2 && down.curr == 0;
    assert down.servers[0].alive && !down.servers[1].alive;
    var sel := Next(down);
    assert sel.peer == Some(0);
    assert sel.pool.curr == 0;
    var up := SetAlive(sel.pool, 1, true);
    AllAliveRoundsCover(up, 10);
  }

  /**
   * With every server alive, any `k >= len` consecutive calls return every
   * server, and none of them comes back empty.
   */
  lemma AllAliveRoundsCover(sp: ServerPool, k: nat)
    requires |sp.servers| > 0 && AllAlive(sp.servers) && k >= |sp.servers|
    ensures var picks := NextRounds(sp, k).picks;
      && (forall i :: 0 <= i < |sp.servers| ==> Some(i) in picks)
      && None !in picks
  {
    var n := |sp.servers|;
    var picks := NextRounds(sp, k).picks;
    RoundRobinAllAlive(sp, k);
    var s := (sp.curr + 1) % n;
    forall j | 0 <= j < n
      ensures picks[..n][j] == Some(Wrap(s + j, n))
    {
      RotatedIndex(sp.curr + 1, j, n);
    }
    RotationVisitsEachOnce(picks[..n], s, n);
    forall i | 0 <= i < n ensures Some(i) in picks {
      assert Some(i) in picks[..n];
    }
    assert forall j :: 0 <= j < k ==> picks[j].Some?;
  }
}
