/** The comment table: comments are appended and read back per ticket, oldest first. */
module ComentarioRepository {
  import opened Wrappers
  import opened Domain
  import Sorting

  predicate UniqueIds(cs: seq<Comentario>) {
    forall i, j :: 0 <= i < j < |cs| ==> cs[i].id != cs[j].id
  }

  predicate HasId(cs: seq<Comentario>, id: Id) {
    exists i :: 0 <= i < |cs| && cs[i].id == id
  }

  class Repository {
    var comentarios: seq<Comentario>

    ghost predicate Valid()
      reads this
    {
      UniqueIds(comentarios)
    }

    constructor ()
      ensures Valid() && comentarios == []
    {
      comentarios := [];
    }

    /** `AddAsync`: a null comment is refused; otherwise the comment is stored and handed back. */
    method Add(comentario: Option<Comentario>) returns (r: Outcome<Comentario>)
      requires Valid()
      modifies this
      ensures Valid()
      ensures comentario.None? ==> r == Err(NullArgument("comentario")) && comentarios == old(comentarios)
      ensures comentario.Some? && HasId(old(comentarios), comentario.value.id) ==>
        r == Err(SaveRefused) && comentarios == old(comentarios)
      ensures comentario.Some? && !HasId(old(comentarios), comentario.value.id) ==>
        r == Ok(comentario.value) && comentarios == old(comentarios) + [comentario.value]
    {
      if comentario.None? {
        return Err(NullArgument("comentario"));
      }
      if HasId(comentarios, comentario.value.id) {
        return Err(SaveRefused);
      }
      comentarios := comentarios + [comentario.value];
      r := Ok(comentario.value);
    }
  }

  /** Oldest first: the order of `OrderBy(c => c.Fecha)`. */
  predicate OlderFirst(a: Comentario, b: Comentario) {
    a.fecha <= b.fecha
  }

  lemma OlderFirstIsTotalPreorder()
    ensures Sorting.TotalPreorder(OlderFirst)
  {
  }

  /**
   * `GetByTicketIdAsync` and `GetByTicketIdOrderedByFechaAscAsync`, whose queries are the same:
   * the comments of one ticket, oldest first, comments of the same instant in storage order.
   */
  function GetByTicketId(cs: seq<Comentario>, ticketId: Id): (r: seq<Comentario>)
    ensures forall c :: c in r <==> c in cs && c.ticketId == ticketId
    ensures forall c :: multiset(r)[c] == if c.ticketId == ticketId then multiset(cs)[c] else 0
    ensures Sorting.SortedBy(r, OlderFirst)
  {
    OlderFirstIsTotalPreorder();
    Sorting.SortedWhere(cs, (c: Comentario) => c.ticketId == ticketId, OlderFirst)
  }

  /** A comment just added is listed under its ticket, and the other tickets' lists do not change. */
  lemma AddedCommentListed(cs: seq<Comentario>, c: Comentario, ticketId: Id)
    ensures c.ticketId == ticketId ==> c in GetByTicketId(cs + [c], ticketId)
    ensures c.ticketId != ticketId ==> GetByTicketId(cs + [c], ticketId) == GetByTicketId(cs, ticketId)
  {
    var p := (x: Comentario) => x.ticketId == ticketId;
    FilterConcat(cs, [c], p);
    if c.ticketId != ticketId {
      assert Filter([c], p) == [];
      assert Filter(cs + [c], p) == Filter(cs, p);
    }
  }
}
