/**
 * The lead store: the contact data of a visitor who filled in a lead form,
 * kept in local storage under five keys, plus a set of subscribed listeners
 * that are told about every change so that every `useLead` stays in sync.
 * A visitor counts as a lead as soon as the id key exists.
 */
module UseLead {
  import opened Wrappers
  import opened WebStorage
  import opened Seqs

  const KeyId := "saude_lead_id"
  const KeyNome := "saude_lead_nome"
  const KeyUf := "saude_lead_uf"
  const KeyFaixa := "saude_lead_faixa"
  const KeyTipo := "saude_lead_tipo"

  /** The keys in the order `Object.values(KEYS)` lists them. */
  const LeadKeys: seq<string> := [KeyId, KeyNome, KeyUf, KeyFaixa, KeyTipo]

  datatype LeadData = LeadData(id: string, nome: string, uf: string, faixaEtaria: string, tipoContratacao: string)

  /** A subscribed callback, identified by a number. */
  type Listener = nat

  /** The storage items after `setLead` wrote its five keys. */
  function Written(items: map<string, string>, lead: LeadData): map<string, string>
  {
    items[KeyId := lead.id][KeyNome := lead.nome][KeyUf := lead.uf][KeyFaixa := lead.faixaEtaria][KeyTipo := lead.tipoContratacao]
  }

  /** The storage items without the lead keys. */
  function Cleared(items: map<string, string>): map<string, string>
  {
    items - {KeyId, KeyNome, KeyUf, KeyFaixa, KeyTipo}
  }

  /** `readLead` on the given items: no lead without a non-empty id; a missing field reads as `""`. */
  function ReadLeadIn(items: map<string, string>): Option<LeadData>
  {
    if KeyId !in items || items[KeyId] == "" then None
    else Some(LeadData(
      items[KeyId],
      if KeyNome in items then items[KeyNome] else "",
      if KeyUf in items then items[KeyUf] else "",
      if KeyFaixa in items then items[KeyFaixa] else "",
      if KeyTipo in items then items[KeyTipo] else ""))
  }

  /**
   * Reading after writing gives the written lead back, unless its id is empty:
   * then the visitor counts as a lead (the id key exists) but no lead data is
   * readable.
   */
  lemma ReadAfterWrite(items: map<string, string>, lead: LeadData)
    ensures KeyId in Written(items, lead)
    ensures ReadLeadIn(Written(items, lead)) == if lead.id == "" then None else Some(lead)
  {
  }

  /** Writing and clearing a lead touch only the five lead keys. */
  lemma LeadKeysOnly(items: map<string, string>, lead: LeadData, k: string)
    requires k !in LeadKeys
    ensures k in Written(items, lead) <==> k in items
    ensures k in Written(items, lead) ==> Written(items, lead)[k] == items[k]
    ensures k in Cleared(items) <==> k in items
    ensures k in Cleared(items) ==> Cleared(items)[k] == items[k]
  {
  }

  /** After clearing there is no lead, and clearing again changes nothing. */
  lemma ClearedHasNoLead(items: map<string, string>)
    ensures KeyId !in Cleared(items) && ReadLeadIn(Cleared(items)) == None
    ensures Cleared(Cleared(items)) == Cleared(items)
  {
  }

  class LeadStore {
    const storage: Storage
    /** The subscribed listeners, in subscription order (a JavaScript `Set`). */
    var listeners: seq<Listener>
    /** Every listener call made so far, in order. */
    var calls: seq<Listener>

    ghost predicate Valid()
      reads this
    {
      Distinct(listeners)
    }

    constructor (st: Storage)
      ensures storage == st && listeners == [] && calls == [] && Valid()
    {
      storage := st;
      listeners := [];
      calls := [];
    }

    /** `subscribe(cb)`: adds the callback unless it is already there. */
    method Subscribe(cb: Listener)
      requires Valid()
      modifies this
      ensures Valid()
      ensures listeners == if cb in old(listeners) then old(listeners) else old(listeners) + [cb]
      ensures calls == old(calls)
    {
      if cb !in listeners {
        listeners := listeners + [cb];
      }
    }

    /** The function `subscribe` returns: removes the callback. */
    method Unsubscribe(cb: Listener)
      requires Valid()
      modifies this
      ensures Valid()
      ensures listeners == Without(old(listeners), cb) && cb !in listeners
      ensures calls == old(calls)
    {
      WithoutDistinct(listeners, cb);
      listeners := Without(listeners, cb);
    }

    /** `emit()`: calls every subscribed listener once, in subscription order. */
    method Emit()
      modifies this
      ensures listeners == old(listeners)
      ensures calls == old(calls) + listeners
    {
      for i := 0 to |listeners|
        invariant listeners == old(listeners)
        invariant calls == old(calls) + listeners[..i]
      {
        calls := calls + [listeners[i]];
        assert listeners[..i + 1] == listeners[..i] + [listeners[i]];
      }
      assert listeners[..|listeners|] == listeners;
    }

    /** `getSnapshot()`: the stored id, `null` when absent or when storage throws. */
    function Snapshot(): Option<string>
      reads this, storage
    {
      storage.Get(KeyId)
    }

    /** `isLead` of `useLead`. */
    predicate IsLead()
      reads this, storage
    {
      Snapshot().Some?
    }

    /** `readLead()`. */
    function ReadLead(): Option<LeadData>
      reads this, storage
    {
      if storage.available then ReadLeadIn(storage.items) else None
    }

    /** `lead` of `useLead`: read only when the snapshot says the visitor is a lead. */
    function Lead(): (r: Option<LeadData>)
      reads this, storage
      ensures r.Some? ==> IsLead()
    {
      if IsLead() then ReadLead() else None
    }

    /** `setLead(lead)`: writes the five keys (when storage works), then notifies every listener. */
    method SetLead(lead: LeadData)
      modifies this, storage
      ensures storage.available == old(storage.available)
      ensures storage.items == if storage.available then Written(old(storage.items), lead) else old(storage.items)
      ensures listeners == old(listeners) && calls == old(calls) + listeners
      ensures storage.available ==> IsLead() && Lead() == (if lead.id == "" then None else Some(lead))
    {
      var ok := storage.SetItem(KeyId, lead.id);
      ok := storage.SetItem(KeyNome, lead.nome);
      ok := storage.SetItem(KeyUf, lead.uf);
      ok := storage.SetItem(KeyFaixa, lead.faixaEtaria);
      ok := storage.SetItem(KeyTipo, lead.tipoContratacao);
      ReadAfterWrite(old(storage.items), lead);
      Emit();
    }

    /** `clearLead()`: removes the five keys (when storage works), then notifies every listener. */
    method ClearLead()
      modifies this, storage
      ensures storage.available == old(storage.available)
      ensures storage.items == if storage.available then Cleared(old(storage.items)) else old(storage.items)
      ensures listeners == old(listeners) && calls == old(calls) + listeners
      ensures !IsLead() && Lead() == None
    {
      for i := 0 to |LeadKeys|
        invariant storage.available == old(storage.available)
        invariant storage.items == if storage.available then old(storage.items) - set k | k in LeadKeys[..i] else old(storage.items)
        invariant listeners == old(listeners) && calls == old(calls)
      {
        var ok := storage.RemoveItem(LeadKeys[i]);
        assert LeadKeys[..i + 1] == LeadKeys[..i] + [LeadKeys[i]];
      }
      assert LeadKeys[..|LeadKeys|] == LeadKeys;
      assert (set k | k in LeadKeys) == {KeyId, KeyNome, KeyUf, KeyFaixa, KeyTipo};
      Emit();
    }
  }
}
