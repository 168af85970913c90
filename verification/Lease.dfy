/** The per-file lease lock kept in Valkey, for any number of clients and any interleaving of their
    steps with the passing of time. */
module Lease {
  import opened Tables

  type Token = nat

  /** A key with its value and the time at which the server drops it. */
  datatype Entry = Entry(token: Token, until: nat)

  /** A call to the server: its answer, or no answer, in which case it may have been carried out or
      not. */
  datatype Reply = Yes | No | Failed

  class Valkey {
    var now: nat
    var entries: map<string, Entry>
    /** How many calls were not answered, and the tokens of those that asked for a key. */
    ghost var unanswered: nat
    ghost var unheard: set<Token>

    constructor ()
      ensures entries == map[] && unanswered == 0 && unheard == {}
    {
      now, entries, unanswered, unheard := 0, map[], 0, {};
    }

    /** Time passes, and expired keys are dropped. */
    method Pass(time: nat)
      modifies this`now, this`entries
      ensures now == old(now) + time
      ensures entries == map key | key in old(entries) && now < old(entries)[key].until :: old(entries)[key]
    {
      now := now + time;
      entries := map key | key in entries && now < entries[key].until :: entries[key];
    }

    /** `SET key token NX EX ttl`. */
    method SetIfAbsent(key: string, token: Token, ttl: nat) returns (r: Reply)
      modifies this`entries, this`unanswered, this`unheard
      ensures unanswered == old(unanswered) + if r == Failed then 1 else 0
      ensures unheard == old(unheard) + if r == Failed then {token} else {}
      ensures r == Yes ==> key !in old(entries)
      ensures r == No ==> key in old(entries)
      ensures entries == old(entries) || (key !in old(entries) && entries == old(entries)[key := Entry(token, now + ttl)])
      ensures r == Yes ==> entries == old(entries)[key := Entry(token, now + ttl)]
      ensures r == No ==> entries == old(entries)
    {
      if * {
        unanswered, unheard := unanswered + 1, unheard + {token};
        return Failed;
      }
      r := if key in entries then No else Yes;
      if r == Yes {
        entries := entries[key := Entry(token, now + ttl)];
      }
      if * {
        unanswered, unheard := unanswered + 1, unheard + {token};
        r := Failed;
      }
    }

    /** The renewal script: the key's time starts again if it holds this token. */
    method ExpireIfMine(key: string, token: Token, ttl: nat) returns (r: Reply)
      modifies this`entries, this`unanswered
      ensures unanswered == old(unanswered) + if r == Failed then 1 else 0
      ensures r == Yes ==> Mine(old(entries), key, token) && entries == old(entries)[key := Entry(token, now + ttl)]
      ensures r == No ==> !Mine(old(entries), key, token) && entries == old(entries)
      ensures entries == old(entries) ||
              (Mine(old(entries), key, token) && entries == old(entries)[key := Entry(token, now + ttl)])
    {
      if * {
        unanswered := unanswered + 1;
        return Failed;
      }
      r := if Mine(entries, key, token) then Yes else No;
      if r == Yes {
        entries := entries[key := Entry(token, now + ttl)];
      }
      if * {
        unanswered := unanswered + 1;
        r := Failed;
      }
    }

    /** The release script: the key is deleted if it holds this token. */
    method DeleteIfMine(key: string, token: Token) returns (r: Reply)
      modifies this`entries, this`unanswered
      ensures unanswered == old(unanswered) + if r == Failed then 1 else 0
      ensures r == Yes ==> Mine(old(entries), key, token) && entries == old(entries) - {key}
      ensures r == No ==> !Mine(old(entries), key, token) && entries == old(entries)
      ensures entries == old(entries) || (Mine(old(entries), key, token) && entries == old(entries) - {key})
    {
      if * {
        unanswered := unanswered + 1;
        return Failed;
      }
      r := if Mine(entries, key, token) then Yes else No;
      if r == Yes {
        entries := entries - {key};
      }
      if * {
        unanswered := unanswered + 1;
        r := Failed;
      }
    }
  }

  predicate Mine(entries: map<string, Entry>, key: string, token: Token) {
    key in entries && entries[key].token == token
  }

  /** A `with file_lock(...)` block that has been entered and not left. Without a lease, because the
      server was not there or did not answer, it goes on all the same. `until` is when the lease it
      has been told of ends. */
  datatype Section = Section(key: string, leased: bool, until: nat, renewing: bool)

  /** Its lease is in force. */
  predicate InForce(section: Section, now: nat) {
    section.leased && now < section.until
  }

  /** What every step keeps: the keys of the server belong to tokens already drawn and end within a
      lease's time, and a block whose lease is in force owns its key for at least that long. */
  ghost predicate Sound(sections: map<Token, Section>, entries: map<string, Entry>, now: nat, nextToken: Token, ttl: nat) {
    && (forall t :: t in sections ==> t < nextToken)
    && (forall key :: key in entries ==> entries[key].token < nextToken && now < entries[key].until <= now + ttl)
    && (forall t :: t in sections && InForce(sections[t], now) ==> Covered(sections[t], t, entries))
  }

  predicate Covered(section: Section, token: Token, entries: map<string, Entry>) {
    Mine(entries, section.key, token) && section.until <= entries[section.key].until
  }

  lemma EnterSound(sections: map<Token, Section>, entries: map<string, Entry>, now: nat, token: Token, ttl: nat,
                   key: string, section: Section, entries': map<string, Entry>)
    requires Sound(sections, entries, now, token, ttl) && ttl > 0 && section.key == key
    requires entries' == entries || (key !in entries && entries' == entries[key := Entry(token, now + ttl)])
    requires section.leased ==> entries' == entries[key := Entry(token, now + ttl)] && section.until == now + ttl
    ensures Sound(sections[token := section], entries', now, token + 1, ttl)
    ensures Sound(sections, entries', now, token + 1, ttl)
  {
    forall t | t in sections && InForce(sections[t], now)
      ensures Covered(sections[t], t, entries')
    {
      assert Covered(sections[t], t, entries);
    }
  }

  lemma RenewSound(sections: map<Token, Section>, entries: map<string, Entry>, now: nat, nextToken: Token, ttl: nat,
                   token: Token, section: Section, entries': map<string, Entry>)
    requires Sound(sections, entries, now, nextToken, ttl) && ttl > 0 && token in sections
    requires section.key == sections[token].key && section.leased == sections[token].leased
    requires entries' == entries ||
             (Mine(entries, section.key, token) && entries' == entries[section.key := Entry(token, now + ttl)])
    requires section.until == sections[token].until ||
             (section.until == now + ttl && entries' == entries[section.key := Entry(token, now + ttl)])
    ensures Sound(sections[token := section], entries', now, nextToken, ttl)
  {
    forall t | t in sections && t != token && InForce(sections[t], now)
      ensures Covered(sections[t], t, entries')
    {
      assert Covered(sections[t], t, entries);
    }
    assert InForce(sections[token], now) ==> Covered(sections[token], token, entries);
  }

  lemma LeaveSound(sections: map<Token, Section>, entries: map<string, Entry>, now: nat, nextToken: Token, ttl: nat,
                   token: Token, entries': map<string, Entry>)
    requires Sound(sections, entries, now, nextToken, ttl) && token in sections
    requires entries' == entries ||
             (Mine(entries, sections[token].key, token) && entries' == entries - {sections[token].key})
    ensures Sound(Without(sections, token), entries', now, nextToken, ttl)
  {
    forall t | t in sections && t != token && InForce(sections[t], now)
      ensures Covered(sections[t], t, entries')
    {
      assert Covered(sections[t], t, entries);
    }
  }

  lemma PassSound(sections: map<Token, Section>, entries: map<string, Entry>, now: nat, nextToken: Token, ttl: nat,
                  later: nat)
    requires Sound(sections, entries, now, nextToken, ttl) && now <= later
    ensures var left := map key | key in entries && later < entries[key].until :: entries[key];
      Sound(sections, left, later, nextToken, ttl) && (later >= now + ttl ==> left == map[])
  {
    forall t | t in sections && InForce(sections[t], later)
      ensures var left := map key | key in entries && later < entries[key].until :: entries[key];
        Covered(sections[t], t, left)
    {
      assert Covered(sections[t], t, entries);
    }
  }

  datatype Entered = Inside(token: Token) | Blocked

  /** All the gateways that share one Valkey server. */
  class Coordinators {
    const server: Valkey
    const connected: bool
    const lockTtl: nat
    /** The blocks being executed, by token. */
    var sections: map<Token, Section>
    var nextToken: Token

    ghost predicate Valid()
      reads this, server
    {
      && lockTtl > 0 && Sound(sections, server.entries, server.now, nextToken, lockTtl)
      && forall t :: t in sections && !sections[t].leased ==> !connected || t in server.unheard
    }

    constructor (server: Valkey, connected: bool, lockTtl: int)
      requires server.entries == map[]
      ensures Valid() && sections == map[] && this.lockTtl >= 30 && this.server == server
      ensures this.lockTtl == if lockTtl > 30 then lockTtl else 30
    {
      this.server, this.connected := server, connected;
      this.lockTtl := if lockTtl > 30 then lockTtl else 30;
      sections, nextToken := map[], 0;
    }

    /** A block that may run beside another: there is no server, or it did not answer when the block asked
        for the key, or the lease it got has run out. */
    ghost predicate OnItsOwn(token: Token)
      requires token in sections
      reads this, server
    {
      || !connected || token in server.unheard
      || (sections[token].leased && sections[token].until <= server.now)
    }

    /** Two blocks on one file whose leases are in force are one block. */
    lemma Exclusive(s: Token, t: Token)
      requires Valid() && s in sections && t in sections && sections[s].key == sections[t].key
      requires InForce(sections[s], server.now) && InForce(sections[t], server.now)
      ensures s == t
    {
      assert Covered(sections[s], s, server.entries) && Covered(sections[t], t, server.entries);
    }

    method Pass(time: nat)
      requires Valid()
      modifies server`now, server`entries
      ensures Valid() && server.now == old(server.now) + time
      ensures time >= lockTtl ==> server.entries == map[]
    {
      PassSound(sections, server.entries, server.now, nextToken, lockTtl, server.now + time);
      server.Pass(time);
    }

    /** `file_lock` up to its `yield`. When the server answers, a client stays out exactly when the key is
        there, and otherwise goes in with a lease. */
    method Enter(key: string) returns (r: Entered)
      requires Valid()
      modifies this, server`entries, server`unanswered, server`unheard
      ensures Valid()
      ensures connected && server.unanswered == old(server.unanswered) ==>
        (r == Blocked <==> key in old(server.entries)) &&
        (r.Inside? ==> r.token in sections && sections[r.token].leased)
      ensures !connected ==> r.Inside? && server.unanswered == old(server.unanswered)
      ensures server.unheard ==
        old(server.unheard) + if server.unanswered == old(server.unanswered) then {} else {old(nextToken)}
      ensures r == Blocked ==> key in old(server.entries) && sections == old(sections) && server.entries == old(server.entries)
      ensures r.Inside? ==>
        && r.token !in old(sections) && r.token in sections && sections == old(sections)[r.token := sections[r.token]]
        && sections[r.token].key == key
        && (!connected ==> !sections[r.token].leased && server.entries == old(server.entries))
        && (sections[r.token].leased ==>
              sections[r.token] == Section(key, true, server.now + lockTtl, true) &&
              key !in old(server.entries) && server.entries == old(server.entries)[key := Entry(r.token, server.now + lockTtl)])
      ensures r.Inside? && sections[r.token].leased ==> forall t :: t in old(sections) && old(sections)[t].key == key ==>
        !InForce(old(sections)[t], server.now)
    {
      var token := nextToken;
      assert forall t :: t in sections && sections[t].key == key && InForce(sections[t], server.now) ==>
        Covered(sections[t], t, server.entries);
      hide Sound;
      nextToken := nextToken + 1;
      var alone := Section(key, false, 0, false);
      if !connected {
        EnterSound(sections, server.entries, server.now, token, lockTtl, key, alone, server.entries);
        sections := sections[token := alone];
        return Inside(token);
      }
      ghost var before := server.entries;
      var acquired := server.SetIfAbsent(key, token, lockTtl);
      var section := if acquired == Yes then Section(key, true, server.now + lockTtl, true) else alone;
      EnterSound(sections, before, server.now, token, lockTtl, key, section, server.entries);
      match acquired
      case No =>
        r := Blocked;
      case _ =>
        sections := sections[token := section];
        r := Inside(token);
    }

    /** One round of `renew`. A lease that has lapsed is not renewed, and nobody else's is touched. */
    method Renew(token: Token)
      requires Valid() && token in sections && sections[token].renewing && sections[token].leased
      modifies this`sections, server`entries, server`unanswered
      ensures Valid() && sections.Keys == old(sections).Keys
      ensures Mine(old(server.entries), old(sections)[token].key, token) && server.unanswered == old(server.unanswered) ==>
        sections[token].renewing
      ensures forall t :: t in sections && t != token ==> sections[t] == old(sections)[t]
      ensures !Mine(old(server.entries), old(sections)[token].key, token) ==>
        && server.entries == old(server.entries)
        && sections[token] == old(sections)[token].(renewing := false)
      ensures forall k :: k in old(server.entries) && old(server.entries)[k].token != token ==>
        k in server.entries && server.entries[k] == old(server.entries)[k]
      ensures if sections[token].renewing
              then sections[token] == old(sections)[token].(until := server.now + lockTtl) &&
                   server.entries == old(server.entries)[old(sections)[token].key := Entry(token, server.now + lockTtl)]
              else sections[token] == old(sections)[token].(renewing := false)
    {
      hide Sound;
      var section := sections[token];
      ghost var before := server.entries;
      var renewed := server.ExpireIfMine(section.key, token, lockTtl);
      if renewed == Yes {
        section := section.(until := server.now + lockTtl);
      } else {
        section := section.(renewing := false);
      }
      RenewSound(sections, before, server.now, nextToken, lockTtl, token, section, server.entries);
      sections := sections[token := section];
    }

    /** The `finally` of `file_lock`, or the plain end of a block without a lease. Nobody else's
        lease is deleted. */
    method Leave(token: Token)
      requires Valid() && token in sections
      modifies this`sections, server`entries, server`unanswered
      ensures Valid() && sections == Without(old(sections), token)
      ensures old(sections)[token].leased && server.unanswered == old(server.unanswered) ==>
        !Mine(server.entries, old(sections)[token].key, token)
      ensures !old(sections)[token].leased ==> server.entries == old(server.entries)
      ensures forall k :: k in old(server.entries) && old(server.entries)[k].token != token ==>
        k in server.entries && server.entries[k] == old(server.entries)[k]
      ensures server.entries == old(server.entries) || server.entries == old(server.entries) - {old(sections)[token].key}
    {
      hide Sound;
      var section := sections[token];
      ghost var before := server.entries;
      if section.leased {
        var _ := server.DeleteIfMine(section.key, token);
      }
      LeaveSound(sections, before, server.now, nextToken, lockTtl, token, server.entries);
      sections := Without(sections, token);
    }
  }

  /** A step of the whole system: time passes, a client enters, or one of the blocks being executed
      renews or is left. A client that crashes takes no more steps. */
  datatype Move = Pass(time: nat) | Enter(key: string) | Renew(token: Token) | Leave(token: Token)

  /** In every run, at every point, no file has two blocks with leases in force; two blocks are inside
      one file only if, for one of them, there was no server, it did not answer, or the lease has run
      out. */
  method Interleave(clients: Coordinators, moves: seq<Move>)
    requires clients.Valid()
    modifies clients, clients.server
    ensures clients.Valid()
    ensures forall s, t :: s in clients.sections && t in clients.sections && s != t ==>
      (InForce(clients.sections[s], clients.server.now) && InForce(clients.sections[t], clients.server.now) ==>
         clients.sections[s].key != clients.sections[t].key)
    ensures forall s, t :: s in clients.sections && t in clients.sections && s != t ==>
      (clients.sections[s].key == clients.sections[t].key ==> clients.OnItsOwn(s) || clients.OnItsOwn(t))
  {
    for n := 0 to |moves|
      invariant clients.Valid()
    {
      match moves[n]
      case Pass(time) => clients.Pass(time);
      case Enter(key) => var _ := clients.Enter(key);
      case Renew(token) =>
        if token in clients.sections && clients.sections[token].renewing && clients.sections[token].leased {
          clients.Renew(token);
        }
      case Leave(token) =>
        if token in clients.sections {
          clients.Leave(token);
        }
    }
  }
}
