/**
 * The connection registry of websocket/manager.py: three named groups of live
 * connections, connect/disconnect, and the two broadcasts. A send either
 * succeeds or raises; `failing` names the connections whose send raises
 * during a broadcast. A failed connection is closed and disconnected while
 * its group's list is being iterated, exactly as the Python loop does it.
 */
module Connections {

  /** The identity of one accepted websocket. */
  type Conn = nat

  /** `connected_clients`: group name to its connections, in connection order. */
  type Registry = map<string, seq<Conn>>

  /** The group names, in the dict's iteration order. */
  const GroupOrder: seq<string> := ["platform", "client", "driver"]

  /** Exactly the keys platform, client and driver. */
  predicate HasGroups(reg: Registry) {
    reg.Keys == {"platform", "client", "driver"}
  }

  /** The registry at start-up: the three groups, all empty. */
  function InitialRegistry(): (r: Registry)
    ensures HasGroups(r)
    ensures forall g :: g in r ==> r[g] == []
  {
    map["platform" := [], "client" := [], "driver" := []]
  }

  /** `connect`: a known group gets the connection appended; an unknown group name changes nothing. */
  function Connect(reg: Registry, c: Conn, clientType: string): (r: Registry)
    ensures r.Keys == reg.Keys
    ensures clientType in reg ==> r[clientType] == reg[clientType] + [c]
    ensures forall g :: g in reg && g != clientType ==> r[g] == reg[g]
    ensures clientType !in reg ==> r == reg
  {
    if clientType in reg then reg[clientType := reg[clientType] + [c]] else reg
  }

  /** No connection listed twice. */
  predicate Distinct(l: seq<Conn>) {
    forall a, b :: 0 <= a < b < |l| ==> l[a] != l[b]
  }

  /** No group lists a connection twice. */
  predicate NoDuplicates(reg: Registry) {
    forall g :: g in reg ==> Distinct(reg[g])
  }

  /** `list.remove(c)` guarded by `c in list`: drops the first occurrence, if any. */
  function RemoveFirst(l: seq<Conn>, c: Conn): (r: seq<Conn>)
    ensures c !in l ==> r == l
    ensures multiset(r) == multiset(l) - multiset{c}
    ensures |r| == if c in l then |l| - 1 else |l|
  {
    if l == [] then []
    else if l[0] == c then
      assert l == [c] + l[1..];
      l[1..]
    else
      var rest := RemoveFirst(l[1..], c);
      assert l == [l[0]] + l[1..];
      [l[0]] + rest
  }

  /** Position of the first occurrence of `c` in `l`. */
  function IndexOf(l: seq<Conn>, c: Conn): (k: nat)
    requires c in l
    ensures k < |l| && l[k] == c
    ensures forall j :: 0 <= j < k ==> l[j] != c
  {
    if l[0] == c then 0 else 1 + IndexOf(l[1..], c)
  }

  /** The other entries keep their order: removal cuts exactly the first occurrence out. */
  lemma {:induction false} RemoveFirstCutsFirst(l: seq<Conn>, c: Conn)
    requires c in l
    ensures RemoveFirst(l, c) == l[..IndexOf(l, c)] + l[IndexOf(l, c) + 1..]
  {
    if l[0] == c {
      assert IndexOf(l, c) == 0;
      assert RemoveFirst(l, c) == l[1..];
    } else {
      var t := l[1..];
      assert l == [l[0]] + t;
      assert c in t;
      var k := IndexOf(t, c);
      RemoveFirstCutsFirst(t, c);
      assert IndexOf(l, c) == k + 1;
      assert RemoveFirst(l, c) == [l[0]] + (t[..k] + t[k + 1..]);
      CutUnderCons(l, k);
    }
  }

  /** Cutting entry `k` out of the tail, then putting the head back, cuts entry `k + 1` out of the list. */
  lemma CutUnderCons(l: seq<Conn>, k: nat)
    requires k + 1 < |l|
    ensures [l[0]] + (l[1..][..k] + l[1..][k + 1..]) == l[..k + 1] + l[k + 2..]
  {
    assert l[..k + 1] == [l[0]] + l[1..][..k];
    assert l[k + 2..] == l[1..][k + 1..];
  }

  /** Without duplicates, removing the first occurrence removes every occurrence. */
  lemma {:induction false} RemoveFirstUnique(l: seq<Conn>, c: Conn)
    requires Distinct(l)
    ensures c !in RemoveFirst(l, c)
    ensures Distinct(RemoveFirst(l, c))
  {
    if l != [] {
      DistinctTail(l);
      if l[0] != c {
        var t := l[1..];
        RemoveFirstUnique(t, c);
        var rest := RemoveFirst(t, c);
        assert l[0] !in rest by {
          assert multiset(rest)[l[0]] <= multiset(t)[l[0]];
        }
        assert RemoveFirst(l, c) == [l[0]] + rest;
        DistinctCons(l[0], rest);
      }
    }
  }

  /** The tail of a list without duplicates has none and does not contain the head. */
  lemma DistinctTail(l: seq<Conn>)
    requires Distinct(l) && l != []
    ensures Distinct(l[1..]) && l[0] !in l[1..]
  {
    var t := l[1..];
    forall a, b | 0 <= a < b < |t| ensures t[a] != t[b] {
      assert t[a] == l[a + 1] && t[b] == l[b + 1];
    }
    forall j | 0 <= j < |t| ensures t[j] != l[0] {
      assert t[j] == l[j + 1];
    }
  }

  /** Putting a connection in front of a list it is not in keeps the list free of duplicates. */
  lemma DistinctCons(x: Conn, l: seq<Conn>)
    requires Distinct(l) && x !in l
    ensures Distinct([x] + l)
  {
    var s := [x] + l;
    forall a, b | 0 <= a < b < |s| ensures s[a] != s[b] {
      assert s[b] == l[b - 1];
      if a > 0 {
        assert s[a] == l[a - 1];
      }
    }
  }

  /** `disconnect`: the first occurrence of `c` leaves every group listing it; nothing else changes. */
  function Disconnect(reg: Registry, c: Conn): (r: Registry)
    ensures r.Keys == reg.Keys
    ensures forall g :: g in reg ==> r[g] == RemoveFirst(reg[g], c)
  {
    map g | g in reg :: RemoveFirst(reg[g], c)
  }

  /** Every connection listed in `b` under a group is listed in `a` under the same group. */
  predicate Shrunk(a: Registry, b: Registry) {
    b.Keys == a.Keys && forall g, x :: g in b && x in b[g] ==> x in a[g]
  }

  /** Disconnecting only ever removes. */
  lemma DisconnectShrinks(reg: Registry, c: Conn)
    ensures Shrunk(reg, Disconnect(reg, c))
    ensures forall g, x :: g in reg && x in reg[g] && x != c ==> x in Disconnect(reg, c)[g]
  {
    var r := Disconnect(reg, c);
    forall g, x | g in r && x in r[g] ensures x in reg[g] {
      assert x in multiset(r[g]);
    }
    forall g, x | g in reg && x in reg[g] && x != c ensures x in r[g] {
      assert x in multiset(reg[g]);
      assert x in multiset(r[g]);
    }
  }

  /** With no duplicates, a disconnected connection is gone from every group, and none gain duplicates. */
  lemma DisconnectRemovesEverywhere(reg: Registry, c: Conn)
    requires NoDuplicates(reg)
    ensures NoDuplicates(Disconnect(reg, c))
    ensures forall g :: g in reg ==> c !in Disconnect(reg, c)[g]
  {
    forall g | g in reg ensures c !in Disconnect(reg, c)[g] && Distinct(Disconnect(reg, c)[g]) {
      RemoveFirstUnique(reg[g], c);
    }
  }

  /** Result of one broadcast pass: the registry after it, whom it reached, whom it dropped. */
  datatype Pass = Pass(reg: Registry, delivered: seq<Conn>, dropped: seq<Conn>)

  /**
   * The `for client in connected_clients[g]` loop from index `i` on. A failed
   * send disconnects the connection, which shortens the very list being
   * iterated, so the connection after it is not visited in this pass.
   */
  function SendFrom(reg: Registry, g: string, i: nat, failing: set<Conn>): (r: Pass)
    requires g in reg
    ensures Shrunk(reg, r.reg)
    ensures forall x :: x in r.delivered ==> x in reg[g] && x !in failing
    ensures forall x :: x in r.dropped ==> x in reg[g] && x in failing
    decreases |reg[g]| - i
  {
    if i >= |reg[g]| then
      Pass(reg, [], [])
    else
      var c := reg[g][i];
      if c in failing then
        var reg1 := Disconnect(reg, c);
        DisconnectShrinks(reg, c);
        var rest := SendFrom(reg1, g, i + 1, failing);
        Pass(rest.reg, rest.delivered, [c] + rest.dropped)
      else
        var rest := SendFrom(reg, g, i + 1, failing);
        Pass(rest.reg, [c] + rest.delivered, rest.dropped)
  }

  /** When no send fails, every connection from `i` on is reached once, in order, and nothing is dropped. */
  lemma {:induction false} SendFromAllHealthy(reg: Registry, g: string, i: nat, failing: set<Conn>)
    requires g in reg && i <= |reg[g]|
    requires forall j :: i <= j < |reg[g]| ==> reg[g][j] !in failing
    ensures SendFrom(reg, g, i, failing) == Pass(reg, reg[g][i..], [])
    decreases |reg[g]| - i
  {
    if i < |reg[g]| {
      SendFromAllHealthy(reg, g, i + 1, failing);
      assert reg[g][i..] == [reg[g][i]] + reg[g][i + 1..];
    }
  }

  /**
   * With no duplicates in the registry, a dropped connection is gone from
   * every group afterwards, and every connection that was not dropped is
   * still registered in each group it was in.
   */
  lemma {:induction false} SendFromDropsExactly(reg: Registry, g: string, i: nat, failing: set<Conn>)
    requires g in reg && NoDuplicates(reg)
    ensures var r := SendFrom(reg, g, i, failing);
      && NoDuplicates(r.reg)
      && (forall x, h :: x in r.dropped && h in r.reg ==> x !in r.reg[h])
      && (forall h, x :: h in reg && x in reg[h] && x !in r.dropped ==> x in r.reg[h])
    decreases |reg[g]| - i
  {
    if i < |reg[g]| {
      var c := reg[g][i];
      if c in failing {
        var reg1 := Disconnect(reg, c);
        DisconnectShrinks(reg, c);
        DisconnectRemovesEverywhere(reg, c);
        SendFromDropsExactly(reg1, g, i + 1, failing);
        var rest := SendFrom(reg1, g, i + 1, failing);
        assert Shrunk(reg1, rest.reg);
      } else {
        SendFromDropsExactly(reg, g, i + 1, failing);
      }
    }
  }

  /** Without duplicates, removing the entry at `j` cuts exactly position `j` out. */
  lemma CutAtDistinct(l: seq<Conn>, j: nat)
    requires Distinct(l) && j < |l|
    ensures RemoveFirst(l, l[j]) == l[..j] + l[j + 1..]
  {
    RemoveFirstCutsFirst(l, l[j]);
    assert IndexOf(l, l[j]) == j;
  }

  /** Cutting out the entry at `j` keeps a list without duplicates free of them, one shorter, and unchanged before `j`. */
  lemma CutKeepsEarlier(l: seq<Conn>, j: nat, m: nat)
    requires Distinct(l) && m < j < |l|
    ensures Distinct(RemoveFirst(l, l[j]))
    ensures |RemoveFirst(l, l[j])| == |l| - 1
    ensures RemoveFirst(l, l[j])[m] == l[m]
  {
    RemoveFirstUnique(l, l[j]);
    CutAtDistinct(l, j);
    assert (l[..j] + l[j + 1..])[m] == l[..j][m];
  }

  /** The pass of `SendFrom` as seen from the list it iterates: whom it reaches and whom it drops. */
  function Visit(l: seq<Conn>, i: nat, failing: set<Conn>): (r: (seq<Conn>, seq<Conn>))
    decreases |l| - i
  {
    if i >= |l| then ([], [])
    else if l[i] in failing then
      var rest := Visit(RemoveFirst(l, l[i]), i + 1, failing);
      (rest.0, [l[i]] + rest.1)
    else
      var rest := Visit(l, i + 1, failing);
      ([l[i]] + rest.0, rest.1)
  }

  /** A pass depends only on the list of the group it iterates. */
  lemma {:induction false} SendFromIsVisit(reg: Registry, g: string, i: nat, failing: set<Conn>)
    requires g in reg
    ensures (SendFrom(reg, g, i, failing).delivered, SendFrom(reg, g, i, failing).dropped) == Visit(reg[g], i, failing)
    decreases |reg[g]| - i
  {
    if i < |reg[g]| {
      var c := reg[g][i];
      if c in failing {
        var reg1 := Disconnect(reg, c);
        assert reg1[g] == RemoveFirst(reg[g], c);
        SendFromIsVisit(reg1, g, i + 1, failing);
      } else {
        SendFromIsVisit(reg, g, i + 1, failing);
      }
    }
  }

  /** Without duplicates, a pass from index `j` neither reaches nor drops the entry at an earlier index `m`. */
  lemma {:induction false} VisitMissesEarlier(l: seq<Conn>, j: nat, failing: set<Conn>, m: nat)
    requires Distinct(l) && m < j && m < |l|
    ensures l[m] !in Visit(l, j, failing).0 && l[m] !in Visit(l, j, failing).1
    decreases |l| - j
  {
    if j < |l| {
      assert l[m] != l[j];
      if l[j] in failing {
        CutKeepsEarlier(l, j, m);
        VisitMissesEarlier(RemoveFirst(l, l[j]), j + 1, failing, m);
      } else {
        VisitMissesEarlier(l, j + 1, failing, m);
      }
    }
  }

  /**
   * A failed send removes its connection from the list being iterated, so the
   * connection right after it is neither tried nor dropped in that pass.
   */
  lemma SendSkipsNext(reg: Registry, g: string, i: nat, failing: set<Conn>)
    requires g in reg && Distinct(reg[g])
    requires i + 1 < |reg[g]| && reg[g][i] in failing
    ensures reg[g][i + 1] !in SendFrom(reg, g, i, failing).delivered
    ensures reg[g][i + 1] !in SendFrom(reg, g, i, failing).dropped
  {
    var l := reg[g];
    SendFromIsVisit(reg, g, i, failing);
    CutAtDistinct(l, i);
    var l1 := RemoveFirst(l, l[i]);
    assert l1[i] == l[i + 1];
    RemoveFirstUnique(l, l[i]);
    VisitMissesEarlier(l1, i + 1, failing, i);
    assert l[i + 1] != l[i];
  }


  /** `send_message_to_type`: an unknown group name is a no-op. */
  function SendMessageToType(reg: Registry, clientType: string, failing: set<Conn>): (r: Pass)
    ensures clientType !in reg ==> r == Pass(reg, [], [])
    ensures Shrunk(reg, r.reg)
    ensures clientType in reg ==> forall x :: x in r.delivered ==> x in reg[clientType] && x !in failing
    ensures clientType in reg ==> forall x :: x in r.dropped ==> x in reg[clientType] && x in failing
  {
    if clientType !in reg then Pass(reg, [], []) else SendFrom(reg, clientType, 0, failing)
  }

  /** A healthy group gets the message on every connection, in connection order, and stays as it was. */
  lemma SendToHealthyGroup(reg: Registry, clientType: string, failing: set<Conn>)
    requires clientType in reg
    requires forall j :: 0 <= j < |reg[clientType]| ==> reg[clientType][j] !in failing
    ensures SendMessageToType(reg, clientType, failing) == Pass(reg, reg[clientType], [])
  {
    SendFromAllHealthy(reg, clientType, 0, failing);
  }

  /** An instance of the skip: with two failing connections in a row, the second is never tried and stays registered. */
  lemma SendSkipsEntryAfterRemoved()
    ensures var reg := map["platform" := [], "client" := [1, 2], "driver" := []];
      var r := SendMessageToType(reg, "client", {1, 2});
      && r.dropped == [1] && r.delivered == [] && r.reg["client"] == [2]
  {
    var reg := map["platform" := [], "client" := [1, 2], "driver" := []];
    var reg1 := Disconnect(reg, 1);
    assert reg1["client"] == [2];
    assert SendFrom(reg1, "client", 1, {1, 2}) == Pass(reg1, [], []);
  }

  /**
   * `send_message_to_all_except_sender`: the same loop over every group other
   * than the sender's, in the given order; `delivered` pairs each reached
   * connection with the group it was reached through.
   */
  function SendToAllExcept(reg: Registry, senderType: string, groups: seq<string>, failing: set<Conn>): (r: (Registry, seq<(string, Conn)>))
    ensures Shrunk(reg, r.0)
    ensures forall p :: p in r.1 ==> p.0 != senderType && p.0 in groups && p.1 !in failing
    ensures forall p :: p in r.1 ==> p.0 in reg && p.1 in reg[p.0]
    decreases |groups|
  {
    if groups == [] then
      (reg, [])
    else if groups[0] == senderType || groups[0] !in reg then
      SendToAllExcept(reg, senderType, groups[1..], failing)
    else
      var p := SendFrom(reg, groups[0], 0, failing);
      var rest := SendToAllExcept(p.reg, senderType, groups[1..], failing);
      (rest.0, Tag(groups[0], p.delivered) + rest.1)
  }

  /** Pairs every connection of `l` with the group name `g`. */
  function Tag(g: string, l: seq<Conn>): (r: seq<(string, Conn)>)
    ensures |r| == |l|
    ensures forall p :: p in r ==> p.0 == g && p.1 in l
  {
    if l == [] then [] else [(g, l[0])] + Tag(g, l[1..])
  }

  /** The broadcast to all but the sender's group goes over the three groups in dict order. */
  function SendMessageToAllExceptSender(reg: Registry, senderType: string, failing: set<Conn>): (r: (Registry, seq<(string, Conn)>))
    ensures Shrunk(reg, r.0)
    ensures forall p :: p in r.1 ==> p.0 != senderType && p.0 in reg && p.1 in reg[p.0] && p.1 !in failing
  {
    SendToAllExcept(reg, senderType, GroupOrder, failing)
  }

  /** Every connection of every group in `groups` other than the sender's, tagged with its group, group by group. */
  function EveryOtherGroup(reg: Registry, senderType: string, groups: seq<string>): seq<(string, Conn)>
    decreases |groups|
  {
    if groups == [] then []
    else if groups[0] == senderType || groups[0] !in reg then EveryOtherGroup(reg, senderType, groups[1..])
    else Tag(groups[0], reg[groups[0]]) + EveryOtherGroup(reg, senderType, groups[1..])
  }

  /** No connection of a group other than the sender's fails. */
  predicate OthersHealthy(reg: Registry, senderType: string, groups: seq<string>, failing: set<Conn>) {
    forall g, j :: g in groups && g != senderType && g in reg && 0 <= j < |reg[g]| ==> reg[g][j] !in failing
  }

  /**
   * When no send fails, the broadcast reaches every connection of every other
   * group exactly once, group by group in `groups` order and in connection
   * order within a group, and the registry is left as it was.
   */
  lemma {:induction false} SendToAllExceptHealthy(reg: Registry, senderType: string, groups: seq<string>, failing: set<Conn>)
    requires OthersHealthy(reg, senderType, groups, failing)
    ensures SendToAllExcept(reg, senderType, groups, failing) == (reg, EveryOtherGroup(reg, senderType, groups))
    decreases |groups|
  {
    if groups != [] {
      assert groups == [groups[0]] + groups[1..];
      SendToAllExceptHealthy(reg, senderType, groups[1..], failing);
      if groups[0] != senderType && groups[0] in reg {
        SendFromAllHealthy(reg, groups[0], 0, failing);
        assert reg[groups[0]][0..] == reg[groups[0]];
      }
    }
  }

  /**
   * `send_message_to_all_except_sender` with no failing connection: every
   * connection of the groups other than the sender's gets the message, group
   * by group in dict order, and the registry is unchanged.
   */
  lemma AllExceptSenderHealthy(reg: Registry, senderType: string, failing: set<Conn>)
    requires OthersHealthy(reg, senderType, GroupOrder, failing)
    ensures SendMessageToAllExceptSender(reg, senderType, failing) == (reg, EveryOtherGroup(reg, senderType, GroupOrder))
  {
    SendToAllExceptHealthy(reg, senderType, GroupOrder, failing);
  }

  /** Over the three groups in dict order: the two groups other than a known sender's, platform before client before driver. */
  lemma {:induction false} EveryOtherGroupInOrder(reg: Registry, senderType: string)
    requires HasGroups(reg)
    ensures senderType == "platform" ==>
      EveryOtherGroup(reg, senderType, GroupOrder) == Tag("client", reg["client"]) + Tag("driver", reg["driver"])
    ensures senderType == "client" ==>
      EveryOtherGroup(reg, senderType, GroupOrder) == Tag("platform", reg["platform"]) + Tag("driver", reg["driver"])
    ensures senderType == "driver" ==>
      EveryOtherGroup(reg, senderType, GroupOrder) == Tag("platform", reg["platform"]) + Tag("client", reg["client"])
  {
    var g0, g1, g2 := GroupOrder, GroupOrder[1..], GroupOrder[2..];
    assert g0[0] == "platform" && g1[0] == "client" && g2 == ["driver"];
    assert g2[1..] == [];
    assert g1[1..] == g2;
    assert EveryOtherGroup(reg, senderType, g2[1..]) == [];
  }

  /** The registry keeps exactly its three groups through every operation. */
  lemma GroupsArePermanent(reg: Registry, c: Conn, name: string, failing: set<Conn>)
    requires HasGroups(reg)
    ensures HasGroups(Connect(reg, c, name))
    ensures HasGroups(Disconnect(reg, c))
    ensures HasGroups(SendMessageToType(reg, name, failing).reg)
    ensures HasGroups(SendMessageToAllExceptSender(reg, name, failing).0)
  {
  }
}
