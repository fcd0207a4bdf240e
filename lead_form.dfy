/**
 * The full lead form of the quote page: name, email, phone, UF, city, age
 * band, contract type and consent. A valid submission creates the lead,
 * writes it to local storage key by key (without going through the lead
 * store, so no subscriber is told) and hands it to the page.
 */
module LeadForm {
  import opened Wrappers
  import opened Text
  import opened Numbers
  import opened WebStorage
  import opened Utils
  import opened UseLead
  import opened ApiClient

  // ------------------------------------------------------------ email shape

  /** A character `[^\s@]` accepts. */
  predicate EmailChar(c: char) { !IsSpace(c) && c != '@' }

  predicate AllEmailChars(s: string) { forall j :: 0 <= j < |s| ==> EmailChar(s[j]) }

  /** `[^\s@]+\.[^\s@]+`: some dot of the part has a character on each side. */
  predicate HasInnerDot(d: string) { exists k :: 0 < k < |d| - 1 && d[k] == '.' }

  /** The pattern matches with its `@` at index `i`. */
  predicate SplitsAt(s: string, i: int)
  {
    0 < i < |s| && s[i] == '@' && AllEmailChars(s[..i]) && AllEmailChars(s[i + 1..]) && HasInnerDot(s[i + 1..])
  }

  /** `/^[^\s@]+@[^\s@]+\.[^\s@]+$/.test(s)`. */
  predicate IsEmail(s: string)
  {
    exists i | 0 < i < |s| :: SplitsAt(s, i)
  }

  /**
   * The shape the pattern accepts, stated on the parts: the address is a
   * non-empty local part, one `@` and a domain; neither part holds white
   * space or another `@`, and the domain has a dot with a character on each
   * side.
   */
  lemma EmailParts(local: string, domain: string)
    ensures IsEmail(local + "@" + domain) <==>
      local != "" && AllEmailChars(local) && AllEmailChars(domain) && HasInnerDot(domain)
  {
    var s := local + "@" + domain;
    assert s[..|local|] == local;
    assert s[|local| + 1..] == domain;
    if IsEmail(s) {
      var i :| 0 < i < |s| && SplitsAt(s, i);
      OnlyAtSign(s, i);
      assert s[|local|] == '@';
      assert i == |local|;
    }
    if local != "" && AllEmailChars(local) && AllEmailChars(domain) && HasInnerDot(domain) {
      assert SplitsAt(s, |local|);
    }
  }

  /** Around the `@` at `i`, every character is one `[^\s@]` accepts. */
  lemma OnlyAtSign(s: string, i: int)
    requires 0 <= i < |s| && AllEmailChars(s[..i]) && AllEmailChars(s[i + 1..])
    ensures forall j :: 0 <= j < |s| && j != i ==> EmailChar(s[j])
  {
    forall j | 0 <= j < |s| && j != i
      ensures EmailChar(s[j])
    {
      if j < i {
        assert s[..i][j] == s[j];
      } else {
        assert s[i + 1..][j - i - 1] == s[j];
      }
    }
  }

  /** A valid address has exactly one `@` and no white space at all. */
  lemma EmailHasOneAt(s: string)
    requires IsEmail(s)
    ensures forall j :: 0 <= j < |s| ==> !IsSpace(s[j])
    ensures exists i :: 0 <= i < |s| && s[i] == '@' && forall j :: 0 <= j < |s| && j != i ==> s[j] != '@'
  {
    var i :| 0 < i < |s| && SplitsAt(s, i);
    OnlyAtSign(s, i);
  }

  /** A valid address is not blank, so the two email errors never overlap. */
  lemma EmailNotBlank(s: string)
    requires IsEmail(s)
    ensures !AllSpace(s)
  {
    var i :| 0 < i < |s| && SplitsAt(s, i);
    assert !IsSpace(s[i]);
  }

  /** `"a@b.c"` is accepted. */
  lemma ShortEmailAccepted(s: string)
    requires s == "a@b.c"
    ensures IsEmail(s)
  {
    EmailParts("a", "b.c");
    assert "a" + "@" + "b.c" == s;
    assert "b.c"[1] == '.';
  }

  /** `"invalid-email"` has no `@`, and an address without a dot after the `@` is refused too. */
  lemma MalformedEmailsRefused(s: string, t: string)
    requires s == "invalid-email"
    requires t == "user@domain"
    ensures !IsEmail(s) && !IsEmail(t)
  {
    EmailParts("user", "domain");
    assert "user" + "@" + "domain" == t;
    assert !HasInnerDot("domain");
  }

  /** An address with a leading space is refused even though it is not blank. */
  lemma PaddedEmailRefused(s: string)
    requires s == " a@b.c"
    ensures !IsEmail(s) && !AllSpace(s)
  {
    assert s[1] == 'a';
    assert IsSpace(s[0]);
    if IsEmail(s) {
      EmailHasOneAt(s);
      assert false;
    }
  }

  // ------------------------------------------------------------ validation

  datatype Field = Nome | Email | Telefone | Uf | Cidade | FaixaEtaria | TipoContratacao | LgpdAceite

  datatype FormData = FormData(
    nome: string, email: string, telefone: string, uf: string, cidade: string,
    faixaEtaria: string, tipoContratacao: string, lgpdAceite: bool)

  const NomeRequired := "Nome é obrigatório"
  const EmailRequired := "Email é obrigatório"
  const EmailInvalid := "Email inválido"
  const UfRequired := "Selecione o estado"
  const FaixaRequired := "Selecione a faixa etária"
  const TipoRequired := "Selecione o tipo de contratação"
  const ConsentRequired := "Você precisa aceitar os termos para continuar"

  /** The email error for a field value, if any. */
  function EmailError(email: string): Option<string>
  {
    if Trim(email) == "" then Some(EmailRequired)
    else if !IsEmail(email) then Some(EmailInvalid)
    else None
  }

  const Fields: set<Field> := {Nome, Email, Telefone, Uf, Cidade, FaixaEtaria, TipoContratacao, LgpdAceite}

  lemma InFields(f: Field)
    ensures f in Fields
  {
    match f
    case Nome =>
    case Email =>
    case Telefone =>
    case Uf =>
    case Cidade =>
    case FaixaEtaria =>
    case TipoContratacao =>
    case LgpdAceite =>
  }

  /** The error `validate` records for one field, if any; phone and city are not checked. */
  function FieldError(d: FormData, f: Field): Option<string>
  {
    match f
    case Nome => if Trim(d.nome) == "" then Some(NomeRequired) else None
    case Email => EmailError(d.email)
    case Uf => if d.uf == "" then Some(UfRequired) else None
    case FaixaEtaria => if d.faixaEtaria == "" then Some(FaixaRequired) else None
    case TipoContratacao => if d.tipoContratacao == "" then Some(TipoRequired) else None
    case LgpdAceite => if !d.lgpdAceite then Some(ConsentRequired) else None
    case Telefone => None
    case Cidade => None
  }

  /** `validate`'s error record: every field with an error, under that error. */
  function Validate(d: FormData): map<Field, string>
  {
    map f | f in Fields && FieldError(d, f).Some? :: FieldError(d, f).value
  }

  /** The email error appears exactly when the shape is wrong, and says "required" exactly for a blank value. */
  lemma EmailErrorFacts(email: string)
    ensures EmailError(email).None? <==> IsEmail(email)
    ensures EmailError(email).Some? ==> EmailError(email).value == if AllSpace(email) then EmailRequired else EmailInvalid
  {
    if IsEmail(email) {
      EmailNotBlank(email);
    }
  }

  /** Each error appears exactly under its condition; phone and city are never checked. */
  lemma ValidateFacts(d: FormData)
    ensures var errs := Validate(d);
      && (Nome in errs <==> AllSpace(d.nome))
      && (Email in errs <==> !IsEmail(d.email))
      && (Uf in errs <==> d.uf == "")
      && (FaixaEtaria in errs <==> d.faixaEtaria == "")
      && (TipoContratacao in errs <==> d.tipoContratacao == "")
      && (LgpdAceite in errs <==> !d.lgpdAceite)
      && Telefone !in errs && Cidade !in errs
  {
    EmailErrorFacts(d.email);
  }

  /**
   * The form is valid exactly when every required field is filled, the email
   * has the accepted shape and consent is given.
   */
  lemma ValidIff(d: FormData)
    ensures Validate(d) == map[] <==>
      !AllSpace(d.nome) && IsEmail(d.email) && d.uf != "" && d.faixaEtaria != "" && d.tipoContratacao != "" && d.lgpdAceite
  {
    var errs := Validate(d);
    ValidateFacts(d);
    if !AllSpace(d.nome) && IsEmail(d.email) && d.uf != "" && d.faixaEtaria != "" && d.tipoContratacao != "" && d.lgpdAceite {
      assert errs.Keys == {};
    } else {
      var f :| f in {Nome, Email, Uf, FaixaEtaria, TipoContratacao, LgpdAceite} && f in errs;
      assert errs != map[];
    }
  }

  /** The form as first shown, with the detected UF (`""` when none was detected). */
  function Initial(detectedUf: string): (d: FormData)
    ensures d.uf == detectedUf && !d.lgpdAceite
  {
    FormData("", "", "", detectedUf, "", "", "", false)
  }

  /**
   * Submitting the untouched form reports name, email (as missing), age band,
   * contract type and consent together, and the UF as well when none was
   * detected.
   */
  lemma UntouchedFormErrors(detectedUf: string)
    ensures var errs := Validate(Initial(detectedUf));
      && Nome in errs && Email in errs && FaixaEtaria in errs
      && TipoContratacao in errs && LgpdAceite in errs
      && Telefone !in errs && Cidade !in errs
      && (Uf in errs <==> detectedUf == "")
      && errs[Email] == EmailRequired
  {
    var d := Initial(detectedUf);
    assert AllSpace(d.nome) && AllSpace(d.email);
    EmailErrorFacts(d.email);
    ValidateFacts(d);
  }

  // ------------------------------------------------------------ field edits

  /** A field's new value: text for every field but consent, a flag for consent. */
  datatype Value = Text(text: string) | Flag(flag: bool)

  /** The form with one field replaced. */
  function With(d: FormData, field: Field, value: Value): (r: FormData)
    requires (field == LgpdAceite) == value.Flag?
    ensures field == Nome ==> r == d.(nome := value.text)
    ensures field == Email ==> r == d.(email := value.text)
    ensures field == Telefone ==> r == d.(telefone := value.text)
    ensures field == Uf ==> r == d.(uf := value.text)
    ensures field == Cidade ==> r == d.(cidade := value.text)
    ensures field == FaixaEtaria ==> r == d.(faixaEtaria := value.text)
    ensures field == TipoContratacao ==> r == d.(tipoContratacao := value.text)
    ensures field == LgpdAceite ==> r == d.(lgpdAceite := value.flag)
  {
    match field
    case Nome => d.(nome := value.text)
    case Email => d.(email := value.text)
    case Telefone => d.(telefone := value.text)
    case Uf => d.(uf := value.text)
    case Cidade => d.(cidade := value.text)
    case FaixaEtaria => d.(faixaEtaria := value.text)
    case TipoContratacao => d.(tipoContratacao := value.text)
    case LgpdAceite => d.(lgpdAceite := value.flag)
  }

  /** Reading a field back. */
  function Get(d: FormData, field: Field): Value
  {
    match field
    case Nome => Text(d.nome)
    case Email => Text(d.email)
    case Telefone => Text(d.telefone)
    case Uf => Text(d.uf)
    case Cidade => Text(d.cidade)
    case FaixaEtaria => Text(d.faixaEtaria)
    case TipoContratacao => Text(d.tipoContratacao)
    case LgpdAceite => Flag(d.lgpdAceite)
  }

  /** Replacing a field gives that value back for it and leaves every other field alone. */
  lemma WithOnlyThatField(d: FormData, field: Field, value: Value, other: Field)
    requires (field == LgpdAceite) == value.Flag?
    ensures Get(With(d, field, value), field) == value
    ensures other != field ==> Get(With(d, field, value), other) == Get(d, other)
  {
  }

  // ------------------------------------------------------------ submission

  /** The lead the page receives (`Lead` of the API types). */
  datatype Lead = Lead(
    id: string, nome: string, email: string, telefone: Option<string>, uf: string,
    cidade: Option<string>, faixaEtaria: string, tipoContratacao: string, criadoEm: string)

  const SubmitFailed := "Erro ao enviar dados. Tente novamente."

  /** The body the form posts: every field as entered, with the bot-check token when there is one. */
  function Request(d: FormData, token: Option<string>): LeadCreate
  {
    LeadCreate(d.nome, Some(d.email), Some(d.telefone), d.uf, Some(d.cidade), d.faixaEtaria,
               d.tipoContratacao, d.lgpdAceite, None, if token.Some? && token.value != "" then token else None)
  }

  /** The lead built from the form and the server's answer. */
  function LeadOf(d: FormData, id: int, createdAt: string): (l: Lead)
    ensures l.id != "" && ParseInt(l.id) == Some(id)
    ensures (l.telefone == None <==> d.telefone == "") && (l.cidade == None <==> d.cidade == "")
    ensures l.email == d.email
  {
    ParseIntOfString(id);
    Lead(IntToString(id), d.nome, d.email, NonEmpty(d.telefone), d.uf, NonEmpty(d.cidade), d.faixaEtaria, d.tipoContratacao, createdAt)
  }

  /** The five lead-store fields of a lead. */
  function StoreData(l: Lead): LeadData
  {
    LeadData(l.id, l.nome, l.uf, l.faixaEtaria, l.tipoContratacao)
  }

  /** The storage items after the success writes: the five lead keys and the band preference. */
  function SuccessItems(items: map<string, string>, l: Lead): map<string, string>
  {
    items[KeyId := l.id][KeyNome := l.nome][KeyUf := l.uf][KeyFaixa := l.faixaEtaria]
      [FaixaStorageKey := l.faixaEtaria][KeyTipo := l.tipoContratacao]
  }

  /**
   * The success writes hold the same lead that `setLead` would have written,
   * plus the band preference, and the lead store reads it back whole.
   */
  lemma SuccessItemsAsSetLead(items: map<string, string>, l: Lead)
    requires l.id != ""
    ensures SuccessItems(items, l) == Written(items, StoreData(l))[FaixaStorageKey := l.faixaEtaria]
    ensures ReadLeadIn(SuccessItems(items, l)) == Some(StoreData(l))
  {
    ReadAfterWrite(items, StoreData(l));
  }

  class Form {
    const store: LeadStore
    /** Whether the bot-check widget was rendered (`widgetIdRef.current && window.turnstile`). */
    const widgetRendered: bool
    var data: FormData
    var errors: map<Field, string>
    var isSubmitting: bool
    var serverError: Option<string>
    var token: Option<string>
    /** The lead handed to `onSuccess`, once it was called. */
    var delivered: Option<Lead>

    constructor (store: LeadStore, detectedUf: string, widgetRendered: bool)
      ensures this.store == store && this.widgetRendered == widgetRendered
      ensures data == Initial(detectedUf) && errors == map[]
      ensures !isSubmitting && serverError == None && token == None && delivered == None
    {
      this.store := store;
      this.widgetRendered := widgetRendered;
      data := Initial(detectedUf);
      errors := map[];
      isSubmitting := false;
      serverError := None;
      token := None;
      delivered := None;
    }

    /** The bot-check callbacks: a new token, or `null` when it expires or fails. */
    method SetToken(t: Option<string>)
      modifies this`token
      ensures token == t
    {
      token := t;
    }

    /** `updateField`: sets one field and removes that field's error, and only that one. */
    method UpdateField(field: Field, value: Value)
      requires (field == LgpdAceite) == value.Flag?
      modifies this`data, this`errors
      ensures data == With(old(data), field, value)
      ensures errors == old(errors) - {field}
    {
      data := With(data, field, value);
      if field in errors {
        errors := errors - {field};
      }
    }

    /**
     * `handleSubmit`, with `outcome` standing for how `createLead` ends and
     * `storageError` for the message of the exception `localStorage.setItem`
     * throws when storage is unusable. An invalid form sets the errors and
     * sends nothing; a valid one is sent and the answer handled as `Send`
     * describes.
     */
    method Submit(outcome: CreateOutcome, storageError: string) returns (request: Option<LeadCreate>)
      modifies this`errors, this`serverError, this`isSubmitting, this`token, this`delivered, store.storage
      ensures errors == Validate(data)
      ensures request.Some? <==> errors == map[]
      ensures request.Some? ==> request.value == Request(data, old(token))
      ensures request.None? ==> serverError == None && isSubmitting == old(isSubmitting) && token == old(token)
      ensures request.None? ==> delivered == old(delivered) && store.storage.items == old(store.storage.items)
      ensures store.calls == old(store.calls) && store.storage.available == old(store.storage.available)
      ensures request.Some? ==> Answered(outcome, storageError, old(token), old(delivered), old(store.storage.items))
    {
      serverError := None;
      errors := Validate(data);
      if errors != map[] {
        return None;
      }
      assert FaixaEtaria !in errors;
      request := Some(Request(data, token));
      Send(outcome, storageError);
    }

    /**
     * The state after the answer. When the lead was created and storage
     * works, the keys are written directly, the lead store reads the new lead
     * and the page receives it. Otherwise the token is dropped, the message
     * is shown and nothing is stored or handed over. Either way the form is
     * no longer submitting.
     */
    ghost predicate Answered(outcome: CreateOutcome, storageError: string, token0: Option<string>,
                             delivered0: Option<Lead>, items0: map<string, string>)
      reads this, store, store.storage
    {
      && !isSubmitting
      && if outcome.Created? && store.storage.available then
           && delivered == Some(LeadOf(data, outcome.id, outcome.createdAt))
           && serverError == None && token == token0
           && store.storage.items == SuccessItems(items0, delivered.value)
           && store.Lead() == Some(StoreData(delivered.value))
         else
           && delivered == delivered0
           && store.storage.items == items0
           && serverError == Some(if outcome.Failed? then outcome.message.GetOr(SubmitFailed) else storageError)
           && token == if widgetRendered then None else token0
    }

    /** Sends the valid form and handles the answer. */
    method Send(outcome: CreateOutcome, storageError: string)
      requires serverError == None
      requires data.faixaEtaria != ""  // validation passed
      modifies this`serverError, this`isSubmitting, this`token, this`delivered, store.storage
      ensures store.storage.available == old(store.storage.available)
      ensures Answered(outcome, storageError, old(token), old(delivered), old(store.storage.items))
    {
      isSubmitting := true;
      match outcome {
        case Created(id, createdAt) =>
          var lead := LeadOf(data, id, createdAt);
          var ok := store.storage.SetItem(KeyId, lead.id);
          if ok {
            // Availability does not change, so once the first write goes through the rest do too.
            ok := store.storage.SetItem(KeyNome, lead.nome);
            ok := store.storage.SetItem(KeyUf, lead.uf);
            ok := store.storage.SetItem(KeyFaixa, lead.faixaEtaria);
            SaveFaixaEtaria(store.storage, lead.faixaEtaria);
            ok := store.storage.SetItem(KeyTipo, lead.tipoContratacao);
            assert store.storage.items == SuccessItems(old(store.storage.items), lead);
            SuccessItemsAsSetLead(old(store.storage.items), lead);
            assert store.Lead() == Some(StoreData(lead));
            delivered := Some(lead);
          } else {
            Fail(storageError);
          }
        case Failed(message) =>
          Fail(message.GetOr(SubmitFailed));
      }
      isSubmitting := false;
    }

    /** The `catch` branch: the widget is reset, its token dropped, and the message shown. */
    method Fail(message: string)
      modifies this`token, this`serverError
      ensures token == if widgetRendered then None else old(token)
      ensures serverError == Some(message)
    {
      if widgetRendered {
        token := None;
      }
      serverError := Some(message);
    }
  }
}
