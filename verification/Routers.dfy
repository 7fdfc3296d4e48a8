/** The routers table of backend/app/database/meta.py as the endpoints of
    backend/app/api/routers_api.py change it. */
module Routers {
  import opened Wrappers
  import Addresses

  datatype Router = Router(name: string, ip: string, description: string, enabled: bool)

  /** The fields a request leaves out are None. */
  datatype Patch = Patch(name: Option<string>, ip: Option<string>, description: Option<string>, enabled: Option<bool>)

  datatype Reply = Done(id: int) | BadAddress | Conflict | NotFound

  type Table = map<int, Router>

  /** The ASCII characters that str.strip takes off. */
  predicate IsBlank(c: char) {
    c == ' ' || 9 <= c as int <= 13 || 28 <= c as int <= 31
  }

  predicate Unpadded(s: string) {
    s == "" || (!IsBlank(s[0]) && !IsBlank(s[|s| - 1]))
  }

  /** str.strip */
  function Strip(s: string): (r: string)
    ensures Unpadded(r)
  {
    if s == "" then ""
    else if IsBlank(s[0]) then Strip(s[1..])
    else if IsBlank(s[|s| - 1]) then Strip(s[..|s| - 1])
    else s
  }

  predicate AllBlank(s: string) {
    forall i :: 0 <= i < |s| ==> IsBlank(s[i])
  }

  /** Padding on either side comes off, and nothing else. */
  lemma {:induction false} StripTakesPadding(a: string, m: string, b: string)
    requires AllBlank(a) && AllBlank(b) && Unpadded(m)
    ensures Strip(a + m + b) == m
    decreases |a| + |b|
  {
    var s := a + m + b;
    if a != "" {
      assert s[0] == a[0] && s[1..] == a[1..] + m + b;
      StripTakesPadding(a[1..], m, b);
    } else if b != "" {
      assert s[|s| - 1] == b[|b| - 1] && s[..|s| - 1] == a + m + b[..|b| - 1];
      StripTakesPadding(a, m, b[..|b| - 1]);
      if m == "" {
        BlankStrips(s);
      }
    } else {
      assert s == m;
    }
  }

  lemma {:induction false} BlankStrips(s: string)
    requires AllBlank(s)
    ensures Strip(s) == ""
  {
    if s != "" {
      BlankStrips(s[1..]);
    }
  }

  /** The UNIQUE constraints, and normalise_ip on everything that was stored. */
  predicate Consistent(t: Table) {
    && (forall i :: i in t ==> Addresses.IsIPv4(t[i].ip))
    && (forall i, j :: i in t && j in t && i != j ==> t[i].name != t[j].name && t[i].ip != t[j].ip)
  }

  predicate Clashes(t: Table, id: int, r: Router) {
    exists j :: j in t && j != id && (t[j].name == r.name || t[j].ip == r.ip)
  }

  /** enabled_router_ips */
  function EnabledIps(t: Table): set<string> {
    set i | i in t && t[i].enabled :: t[i].ip
  }

  function Patched(r: Router, p: Patch): Router {
    Router(if p.name.Some? then Strip(p.name.value) else r.name,
           if p.ip.Some? then Strip(p.ip.value) else r.ip,
           if p.description.Some? then Strip(p.description.value) else r.description,
           if p.enabled.Some? then p.enabled.value else r.enabled)
  }

  class RouterTable {
    var routers: Table
    var nextId: int

    predicate Valid()
      reads this
    {
      Consistent(routers) && forall i :: i in routers ==> i < nextId
    }

    constructor ()
      ensures Valid() && routers == map[]
    {
      routers, nextId := map[], 1;
    }

    method Add(name: string, ip: string, description: string, enabled: bool) returns (reply: Reply)
      requires Valid()
      modifies this
      ensures Valid()
      ensures var router := Router(Strip(name), Strip(ip), Strip(description), enabled);
        && reply == (if !Addresses.IsIPv4(router.ip) then BadAddress
                     else if Clashes(old(routers), old(nextId), router) then Conflict
                     else Done(old(nextId)))
        && (reply.Done? ==> reply.id !in old(routers) && routers == old(routers)[reply.id := router])
      ensures !reply.Done? ==> routers == old(routers)
      ensures nextId >= old(nextId)
    {
      var address := Strip(ip);
      if !Addresses.IsIPv4(address) {
        return BadAddress;
      }
      var router := Router(Strip(name), address, Strip(description), enabled);
      if Clashes(routers, nextId, router) {
        return Conflict;
      }
      routers := routers[nextId := router];
      reply := Done(nextId);
      nextId := nextId + 1;
    }

    method Update(id: int, p: Patch) returns (reply: Reply)
      requires Valid()
      modifies `routers
      ensures Valid()
      ensures reply == if id !in old(routers) then NotFound
                       else if p.ip.Some? && !Addresses.IsIPv4(Strip(p.ip.value)) then BadAddress
                       else if Clashes(old(routers), id, Patched(old(routers)[id], p)) then Conflict
                       else Done(id)
      ensures routers == if reply.Done? then old(routers)[id := Patched(old(routers)[id], p)] else old(routers)
    {
      if id !in routers {
        return NotFound;
      }
      if p.ip.Some? && !Addresses.IsIPv4(Strip(p.ip.value)) {
        return BadAddress;
      }
      var router := Patched(routers[id], p);
      if Clashes(routers, id, router) {
        return Conflict;
      }
      routers := routers[id := router];
      reply := Done(id);
    }

    method Delete(id: int) returns (reply: Reply)
      requires Valid()
      modifies `routers
      ensures Valid()
      ensures reply == if id in old(routers) then Done(id) else NotFound
      ensures routers == old(routers) - {id}
    {
      if id !in routers {
        assert routers - {id} == routers;
        return NotFound;
      }
      routers := routers - {id};
      reply := Done(id);
    }
  }

  /** Because addresses are unique, disabling or deleting one router takes exactly its address off
      the list. */
  lemma DisablingRemovesOne(t: Table, id: int)
    requires Consistent(t) && id in t
    ensures EnabledIps(t[id := t[id].(enabled := false)]) == EnabledIps(t) - {t[id].ip}
    ensures EnabledIps(t - {id}) == EnabledIps(t) - {t[id].ip}
  {
    var off, gone := t[id := t[id].(enabled := false)], t - {id};
    forall ip | ip in EnabledIps(t) - {t[id].ip} ensures ip in EnabledIps(off) && ip in EnabledIps(gone) {
      var i :| i in t && t[i].enabled && t[i].ip == ip;
      assert off[i] == t[i] && gone[i] == t[i];
    }
  }

  /** Moving an enabled router to another address swaps the two addresses and nothing else. */
  lemma MovingSwapsOne(t: Table, id: int, ip: string)
    requires Consistent(t) && id in t && t[id].enabled
    ensures EnabledIps(t[id := t[id].(ip := ip)]) == EnabledIps(t) - {t[id].ip} + {ip}
  {
    var t' := t[id := t[id].(ip := ip)];
    forall a | a in EnabledIps(t) - {t[id].ip} ensures a in EnabledIps(t') {
      var i :| i in t && t[i].enabled && t[i].ip == a;
      assert t'[i] == t[i];
    }
    assert t'[id].ip == ip;
  }
}
