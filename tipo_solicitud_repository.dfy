/** The request-type table, keyed by id. */
module TipoSolicitudRepository {
  import opened Wrappers
  import opened Domain

  /** Every row is stored under its own id. */
  predicate Keyed(tipos: map<Id, TipoSolicitud>) {
    forall id :: id in tipos ==> tipos[id].id == id
  }

  class Repository {
    var tipos: map<Id, TipoSolicitud>

    ghost predicate Valid()
      reads this
    {
      Keyed(tipos)
    }

    constructor ()
      ensures Valid() && tipos == map[]
    {
      tipos := map[];
    }

    /** `AddAsync`: a null type is refused; a repeated key is refused by the database. */
    method Add(tipo: Option<TipoSolicitud>) returns (r: Outcome<()>)
      requires Valid()
      modifies this
      ensures Valid()
      ensures tipo.None? ==> r == Err(NullArgument("tipoSolicitud")) && tipos == old(tipos)
      ensures tipo.Some? && tipo.value.id in old(tipos) ==> r == Err(SaveRefused) && tipos == old(tipos)
      ensures tipo.Some? && tipo.value.id !in old(tipos) ==> r == Ok(()) && tipos == old(tipos)[tipo.value.id := tipo.value]
    {
      if tipo.None? {
        return Err(NullArgument("tipoSolicitud"));
      }
      if tipo.value.id in tipos {
        return Err(SaveRefused);
      }
      tipos := tipos[tipo.value.id := tipo.value];
      r := Ok(());
    }

    /** `UpdateAsync`: overwrites the stored row with the type's id. */
    method Update(tipo: Option<TipoSolicitud>) returns (r: Outcome<()>)
      requires Valid()
      modifies this
      ensures Valid()
      ensures tipo.None? ==> r == Err(NullArgument("tipoSolicitud")) && tipos == old(tipos)
      ensures tipo.Some? && tipo.value.id !in old(tipos) ==> r == Err(RowMissing) && tipos == old(tipos)
      ensures tipo.Some? && tipo.value.id in old(tipos) ==> r == Ok(()) && tipos == old(tipos)[tipo.value.id := tipo.value]
    {
      if tipo.None? {
        return Err(NullArgument("tipoSolicitud"));
      }
      if tipo.value.id !in tipos {
        return Err(RowMissing);
      }
      tipos := tipos[tipo.value.id := tipo.value];
      r := Ok(());
    }

    /**
     * `DeleteAsync`: removes the row with the type's id. `referenced` says whether a ticket still
     * points at the type, in which case the restricting foreign key makes the database refuse.
     */
    method Delete(tipo: Option<TipoSolicitud>, referenced: bool) returns (r: Outcome<()>)
      requires Valid()
      modifies this
      ensures Valid()
      ensures tipo.None? ==> r == Err(NullArgument("tipoSolicitud")) && tipos == old(tipos)
      ensures tipo.Some? && tipo.value.id !in old(tipos) ==> r == Err(RowMissing) && tipos == old(tipos)
      ensures tipo.Some? && tipo.value.id in old(tipos) && referenced ==> r == Err(SaveRefused) && tipos == old(tipos)
      ensures tipo.Some? && tipo.value.id in old(tipos) && !referenced ==> r == Ok(()) && tipos == old(tipos) - {tipo.value.id}
    {
      if tipo.None? {
        return Err(NullArgument("tipoSolicitud"));
      }
      if tipo.value.id !in tipos {
        return Err(RowMissing);
      }
      if referenced {
        return Err(SaveRefused);
      }
      tipos := tipos - {tipo.value.id};
      r := Ok(());
    }
  }

  /** `GetByIdAsync`: the type with that id, or null. */
  function GetById(tipos: map<Id, TipoSolicitud>, id: Id): (r: Option<TipoSolicitud>)
    requires Keyed(tipos)
    ensures r.None? <==> id !in tipos
    ensures r.Some? ==> r.value.id == id && r.value == tipos[id]
  {
    if id in tipos then Some(tipos[id]) else None
  }
}
