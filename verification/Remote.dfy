/** Everything a gateway reaches over the network. Any call may fail, and the process may
    stop inside any call; an upload either replaces its file whole or leaves it alone, and a
    call that fails or never returns may have taken effect all the same. */
module Remote {
  import opened Tables

  datatype Directory = Objects | ManifestFiles | Keys

  function DirectoryOf(part: Part): Directory {
    match part
    case Object(_) => Objects
    case Manifest(_) => ManifestFiles
    case Key(_) => Keys
  }

  class Cloud {
    var held: Held
    /** Files somebody outside the gateway has removed. */
    ghost var lost: set<Part>
    /** How many calls have failed or answered wrongly. */
    ghost var faults: nat

    constructor ()
      ensures held == map[] && lost == {} && faults == 0
    {
      held, lost, faults := map[], {}, 0;
    }

    method Upload(part: Part, content: Content) returns (r: Outcome<()>)
      modifies this
      ensures lost == old(lost)
      ensures r.Raised? ==> r.error == RemoteFailure
      ensures faults == old(faults) + if r.Raised? then 1 else 0
      ensures held == old(held) ||
              (part in held && held[part].content == content && held == old(held)[part := held[part]])
      ensures r.Done? ==> part in held && held[part].content == content
    {
      var modified: Time := *;
      if * {
        held := held[part := Stored(content, modified)];
        return Done(());
      }
      if * {
        held := held[part := Stored(content, modified)];
      }
      if * {
        return Stopped;
      }
      faults := faults + 1;
      r := Raised(RemoteFailure);
    }

    method Delete(part: Part) returns (r: Outcome<()>)
      modifies this
      ensures lost == old(lost)
      ensures r.Raised? ==> r.error in {RemoteFailure, NotFound}
      ensures faults == old(faults) + if r == Raised(RemoteFailure) then 1 else 0
      ensures held == old(held) || held == Without(old(held), part)
      ensures r.Done? || r == Raised(NotFound) ==> part !in held
      ensures r == Raised(NotFound) ==> held == old(held)
    {
      if * {
        if part !in held {
          return Raised(NotFound);
        }
        held := Without(held, part);
        return Done(());
      }
      if * {
        held := Without(held, part);
      }
      if * {
        return Stopped;
      }
      faults := faults + 1;
      r := Raised(RemoteFailure);
    }

    method Stat(part: Part) returns (r: Outcome<()>)
      modifies this`faults
      ensures faults == old(faults) + if r == Raised(RemoteFailure) then 1 else 0
      ensures r.Raised? ==> r.error in {RemoteFailure, NotFound}
      ensures r.Done? ==> part in held
      ensures r == Raised(NotFound) ==> part !in held
    {
      if * {
        return Stopped;
      }
      if * {
        faults := faults + 1;
        return Raised(RemoteFailure);
      }
      r := if part in held then Done(()) else Raised(NotFound);
    }

    method Download(part: Part) returns (r: Outcome<Content>)
      modifies this`faults
      ensures faults == old(faults) + if r == Raised(RemoteFailure) then 1 else 0
      ensures r.Raised? ==> r.error in {RemoteFailure, NotFound}
      ensures r.Done? ==> part in held && r.value == held[part].content
      ensures r == Raised(NotFound) ==> part !in held
    {
      if * {
        return Stopped;
      }
      if * {
        faults := faults + 1;
        return Raised(RemoteFailure);
      }
      r := if part in held then Done(held[part].content) else Raised(NotFound);
    }

    /** A listing, with each file's time. It may be wrong: iCloud is known to answer with an
        empty listing now and then. A wrong answer counts as a fault. */
    method List(directory: Directory) returns (r: Outcome<map<Part, Time>>)
      modifies this`faults
      ensures r.Raised? ==> r.error == RemoteFailure
      ensures r.Raised? ==> faults > old(faults)
      ensures faults >= old(faults)
      ensures r.Done? ==> forall p :: p in r.value ==> DirectoryOf(p) == directory
      ensures r.Done? && faults == old(faults) ==>
        r.value == map p | p in held && DirectoryOf(p) == directory :: held[p].modified
    {
      if * {
        return Stopped;
      }
      if * {
        faults := faults + 1;
        return Raised(RemoteFailure);
      }
      if * {
        faults := faults + 1;
        var answer: map<Part, Time> := *;
        return Done(map p | p in answer && DirectoryOf(p) == directory :: answer[p]);
      }
      r := Done(map p | p in held && DirectoryOf(p) == directory :: held[p].modified);
    }

    /** One call to the key broker: it answers or fails. */
    method AskBroker() returns (r: Outcome<()>)
      modifies this`faults
      ensures r.Raised? ==> r.error == RemoteFailure
      ensures faults == old(faults) + if r.Raised? then 1 else 0
    {
      if * {
        return Stopped;
      }
      if * {
        faults := faults + 1;
        return Raised(RemoteFailure);
      }
      r := Done(());
    }

    /** Somebody deletes vault files behind the gateway's back. */
    method LoseFiles(gone: set<Part>)
      modifies this
      ensures held == old(held) - gone && lost == old(lost) + gone * old(held).Keys
      ensures faults == old(faults)
    {
      lost := lost + gone * held.Keys;
      held := held - gone;
    }
  }

  /** A client's request body: `data` from `pos` on is still to come, in pieces of any size;
      reading may fail. */
  class Source {
    const data: Bytes
    var pos: nat

    ghost predicate Valid()
      reads this
    {
      pos <= |data|
    }

    constructor (data: Bytes)
      ensures Valid() && this.data == data && pos == 0
    {
      this.data, pos := data, 0;
    }

    /** `read(size)`: some of what is left, at most `size` bytes, and nothing only at the end. */
    method Read(size: nat) returns (r: Outcome<Bytes>)
      requires Valid() && size > 0
      modifies this
      ensures Valid()
      ensures r.Done? ==>
        && |r.value| <= size && pos == old(pos) + |r.value| && pos <= |data|
        && r.value == data[old(pos)..pos]
        && (r.value == [] ==> pos == |data|)
      ensures !r.Done? ==> pos == old(pos)
      ensures r.Raised? ==> r.error == BrokenBody
    {
      if * {
        return Stopped;
      }
      if * {
        return Raised(BrokenBody);
      }
      var most := if |data| - pos < size then |data| - pos else size;
      var n: nat := *;
      if n < 1 || n > most {
        n := most;
      }
      r := Done(data[pos..][..n]);
      pos := pos + n;
    }
  }

  /** `_read_exact`: the next `size` bytes, or what is left when the stream ends early. */
  method ReadExact(source: Source, size: nat) returns (r: Outcome<Bytes>)
    requires source.Valid()
    modifies source
    ensures source.Valid()
    ensures source.pos >= old(source.pos)
    ensures r.Raised? ==> r.error == BrokenBody
    ensures r.Done? ==>
      && r.value == source.data[old(source.pos)..source.pos]
      && |r.value| == if |source.data| - old(source.pos) < size then |source.data| - old(source.pos) else size
  {
    var result: Bytes := [];
    while |result| < size
      invariant source.Valid() && source.pos >= old(source.pos)
      invariant |result| <= size && result == source.data[old(source.pos)..source.pos]
      decreases size - |result|
    {
      var chunk :- source.Read(size - |result|);
      if chunk == [] {
        break;
      }
      result := result + chunk;
    }
    r := Done(result);
  }
}
