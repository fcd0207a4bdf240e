/**
 * The lead-capture modal shown when a visitor asks for a real price: a name,
 * a Brazilian mobile number typed through the `(XX) XXXXX-XXXX` mask and the
 * consent box. A valid submission creates the lead with the detected UF, the
 * saved age band and individual contracting, stores it through `setLead`
 * and closes the modal.
 */
module LeadCaptureModal {
  import opened Wrappers
  import opened Text
  import opened Numbers
  import opened WebStorage
  import opened Utils
  import opened UseLead
  import opened UseUserUf
  import opened ApiClient

  // ------------------------------------------------------------ phone mask

  /** `digitsOnly`: the input with every character other than `0`-`9` removed. */
  function DigitsOnly(s: string): (r: string)
    ensures AllDigits(r) && |r| <= |s|
  {
    if s == [] then [] else (if IsDigit(s[0]) then [s[0]] else []) + DigitsOnly(s[1..])
  }

  /** Removing non-digits distributes over concatenation. */
  lemma {:induction false} DigitsOnlyAppend(a: string, b: string)
    ensures DigitsOnly(a + b) == DigitsOnly(a) + DigitsOnly(b)
    decreases |a|
  {
    if a == [] {
      assert a + b == b;
    } else {
      var head: string := if IsDigit(a[0]) then [a[0]] else [];
      assert (a + b)[0] == a[0];
      assert (a + b)[1..] == a[1..] + b;
      DigitsOnlyAppend(a[1..], b);
      assert DigitsOnly(a + b) == head + (DigitsOnly(a[1..]) + DigitsOnly(b));
      assert DigitsOnly(a) == head + DigitsOnly(a[1..]);
    }
  }

  /** A string of digits is kept whole. */
  lemma {:induction false} DigitsOnlyOfDigits(s: string)
    requires AllDigits(s)
    ensures DigitsOnly(s) == s
    decreases |s|
  {
    if s != [] {
      DigitsOnlyOfDigits(s[1..]);
    }
  }

  /** A string without digits vanishes. */
  lemma {:induction false} DigitsOnlyOfNonDigits(s: string)
    requires forall i :: 0 <= i < |s| ==> !IsDigit(s[i])
    ensures DigitsOnly(s) == ""
    decreases |s|
  {
    if s != [] {
      DigitsOnlyOfNonDigits(s[1..]);
    }
  }

  /**
   * `digitsOnly` keeps exactly the digits, in order: with the three lemmas
   * above it is the homomorphism that maps a digit to itself and any other
   * character to nothing, and applying it twice changes nothing.
   */
  lemma DigitsOnlyIdempotent(s: string)
    ensures DigitsOnly(DigitsOnly(s)) == DigitsOnly(s)
  {
    DigitsOnlyOfDigits(DigitsOnly(s));
  }

  const MaxPhoneDigits := 11

  /** The first 11 digits of the input. */
  function FirstDigits(s: string): (r: string)
    ensures AllDigits(r) && |r| <= MaxPhoneDigits
  {
    var d := DigitsOnly(s);
    if |d| <= MaxPhoneDigits then d else d[..MaxPhoneDigits]
  }

  /** The `(XX) XXXXX-XXXX` layout of up to 11 digits. */
  function Layout(d: string): string
  {
    if |d| <= 2 then (if |d| > 0 then "(" + d else "")
    else if |d| <= 7 then "(" + d[..2] + ") " + d[2..]
    else "(" + d[..2] + ") " + d[2..7] + "-" + d[7..]
  }

  /** `applyPhoneMask`. */
  function PhoneMask(value: string): string
  {
    Layout(FirstDigits(value))
  }

  /** The mask only adds punctuation: its digits are the first 11 digits of the input. */
  lemma PhoneMaskDigits(value: string)
    ensures DigitsOnly(PhoneMask(value)) == FirstDigits(value)
  {
    var d := FirstDigits(value);
    DigitsOnlyOfDigits(d);
    DigitsOnlyOfNonDigits("(");
    DigitsOnlyOfNonDigits(") ");
    DigitsOnlyOfNonDigits("-");
    if |d| <= 2 {
      if |d| > 0 {
        DigitsOnlyAppend("(", d);
      }
    } else if |d| <= 7 {
      assert d == d[..2] + d[2..];
      DigitsOnlyOfDigits(d[..2]);
      DigitsOnlyOfDigits(d[2..]);
      DigitsOnlyAppend("(", d[..2]);
      DigitsOnlyAppend("(" + d[..2], ") ");
      DigitsOnlyAppend("(" + d[..2] + ") ", d[2..]);
    } else {
      assert d[..7] == d[..2] + d[2..7];
      assert d == d[..7] + d[7..];
      DigitsOnlyOfDigits(d[..2]);
      DigitsOnlyOfDigits(d[2..7]);
      DigitsOnlyOfDigits(d[7..]);
      DigitsOnlyAppend("(", d[..2]);
      DigitsOnlyAppend("(" + d[..2], ") ");
      DigitsOnlyAppend("(" + d[..2] + ") ", d[2..7]);
      DigitsOnlyAppend("(" + d[..2] + ") " + d[2..7], "-");
      DigitsOnlyAppend("(" + d[..2] + ") " + d[2..7] + "-", d[7..]);
    }
  }

  /** Masking an already masked number changes nothing, so retyping into the field is stable. */
  lemma PhoneMaskIdempotent(value: string)
    ensures PhoneMask(PhoneMask(value)) == PhoneMask(value)
  {
    PhoneMaskDigits(value);
  }

  /** The mask is injective on digit strings of at most 11 digits: their digits come back out. */
  lemma PhoneMaskOfDigits(d: string)
    requires AllDigits(d) && |d| <= MaxPhoneDigits
    ensures DigitsOnly(PhoneMask(d)) == d
  {
    PhoneMaskDigits(d);
    DigitsOnlyOfDigits(d);
  }

  /** The layout of a full eleven-digit mobile number. */
  lemma PhoneMaskFullNumber(s: string)
    requires s == "11999998888"
    ensures PhoneMask(s) == "(11) 99999-8888"
  {
    assert AllDigits(s);
    DigitsOnlyOfDigits(s);
    assert FirstDigits(s) == s;
    assert s[..2] == "11";
    assert s[2..7] == "99999";
    assert s[7..] == "8888";
    assert Layout(s) == "(" + "11" + ") " + "99999" + "-" + "8888";
    assert "(" + "11" + ") " + "99999" + "-" + "8888" == "(11) 99999-8888";
  }

  /** The layout of a partial number, and of a field with no digits. */
  lemma PhoneMaskPartialNumber()
    ensures PhoneMask("123") == "(12) 3"
    ensures PhoneMask("") == ""
  {
    var s := "123";
    assert AllDigits(s);
    DigitsOnlyOfDigits(s);
    assert FirstDigits(s) == s;
    assert s[..2] == "12" && s[2..] == "3";
  }

  // ------------------------------------------------------------ validation

  datatype Field = Nome | Telefone | Lgpd

  const NomeRequired := "Nome é obrigatório"
  const PhoneRequired := "Celular é obrigatório"
  const PhoneInvalid := "Número inválido"
  const ConsentRequired := "Você precisa aceitar os termos"

  /** The phone error for a field value, if any. */
  function PhoneError(telefone: string): Option<string>
  {
    var digits := DigitsOnly(telefone);
    if digits == "" then Some(PhoneRequired)
    else if |digits| < 10 || |digits| > 11 then Some(PhoneInvalid)
    else None
  }

  /** `validate`'s error record, built field by field; a name trims to `""` exactly when it is all white space. */
  function Validate(nome: string, telefone: string, lgpd: bool): map<Field, string>
  {
    var e1: map<Field, string> := if AllSpace(nome) then map[Nome := NomeRequired] else map[];
    var e2 := match PhoneError(telefone) case Some(m) => e1[Telefone := m] case None => e1;
    if !lgpd then e2[Lgpd := ConsentRequired] else e2
  }

  /**
   * Each error appears exactly under its condition, and the form is valid
   * exactly when the name is not all white space (it trims to something),
   * the number has 10 or 11 digits and consent is given.
   */
  lemma ValidateFacts(nome: string, telefone: string, lgpd: bool)
    ensures var errs := Validate(nome, telefone, lgpd);
      && (Nome in errs <==> AllSpace(nome))
      && (Nome in errs ==> errs[Nome] == NomeRequired)
      && (Lgpd in errs <==> !lgpd)
      && (Lgpd in errs ==> errs[Lgpd] == ConsentRequired)
      && (Telefone in errs <==> PhoneError(telefone).Some?)
      && (Telefone in errs ==> errs[Telefone] == PhoneError(telefone).value)
    ensures Validate(nome, telefone, lgpd) == map[] <==> !AllSpace(nome) && 10 <= |DigitsOnly(telefone)| <= 11 && lgpd
  {
  }

  /**
   * Because the field always holds a masked value, at most 11 digits reach
   * validation: a typed number is never rejected as too long, only as
   * missing or too short, and it passes once 10 digits have been typed.
   */
  lemma MaskedPhoneError(raw: string)
    ensures PhoneError(PhoneMask(raw)) == None <==> |DigitsOnly(raw)| >= 10
    ensures PhoneError(PhoneMask(raw)) == Some(PhoneRequired) <==> DigitsOnly(raw) == ""
    ensures PhoneError(PhoneMask(raw)) == Some(PhoneInvalid) <==> 0 < |DigitsOnly(raw)| < 10
  {
    PhoneMaskDigits(raw);
  }

  // ------------------------------------------------------------ submission

  const DefaultUf := "SP"
  const DefaultFaixa := "29 a 33 anos"
  const IndividualTipo := "Individual ou familiar"
  const Origem := "preco_gate"
  const SubmitFailed := "Erro ao enviar. Tente novamente."

  /** `getSavedFaixaEtaria() || "29 a 33 anos"` for what storage holds under the band key. */
  function SubmittedFaixa(stored: Option<string>): (r: string)
    ensures r != "" && r !in FaixaMigration
  {
    MigrationTargetsNotCodes();
    var raw := stored.GetOr("");
    var saved := if raw in FaixaMigration then FaixaMigration[raw] else raw;
    if saved != "" then saved else DefaultFaixa
  }

  /** The storage items after `getSavedFaixaEtaria` rewrote an old band code. */
  function MigratedItems(items: map<string, string>, available: bool): map<string, string>
  {
    if available && FaixaStorageKey in items && items[FaixaStorageKey] in FaixaMigration
    then items[FaixaStorageKey := FaixaMigration[items[FaixaStorageKey]]]
    else items
  }

  /** The band rewrite touches no lead key. */
  lemma MigrationKeepsLead(items: map<string, string>, available: bool)
    ensures ReadLeadIn(MigratedItems(items, available)) == ReadLeadIn(items)
    ensures KeyId in MigratedItems(items, available) <==> KeyId in items
  {
  }

  /** `token || undefined`. */
  function TokenField(token: Option<string>): Option<string>
  {
    if token.Some? && token.value != "" then token else None
  }

  /** The body the modal posts. */
  function UfOrDefault(uf: string): string { if uf != "" then uf else DefaultUf }

  /** The body the modal posts, for the detected UF (`""` when none was detected). */
  function Request(nome: string, telefone: string, detectedUf: string, faixa: string, token: Option<string>): (r: LeadCreate)
    ensures r.telefone.Some? && AllDigits(r.telefone.value) && r.email.None? && r.cidade.None? && r.lgpdAceite
    ensures r.uf != ""
  {
    LeadCreate(nome, None, Some(DigitsOnly(telefone)), UfOrDefault(detectedUf), None, faixa, IndividualTipo, true, Some(Origem), TokenField(token))
  }

  class Modal {
    const store: LeadStore
    const userUf: UserUf
    /** Whether the bot-check widget was rendered (`widgetIdRef.current && window.turnstile`). */
    const widgetRendered: bool
    var nome: string
    var telefone: string
    var lgpd: bool
    var errors: map<Field, string>
    var isSubmitting: bool
    var serverError: Option<string>
    var token: Option<string>
    /** Whether `onSuccess` and `onClose` were called. */
    var succeeded: bool

    constructor (store: LeadStore, userUf: UserUf, widgetRendered: bool)
      ensures this.store == store && this.userUf == userUf && this.widgetRendered == widgetRendered
      ensures nome == "" && telefone == "" && !lgpd && errors == map[]
      ensures !isSubmitting && serverError == None && token == None && !succeeded
    {
      this.store := store;
      this.userUf := userUf;
      this.widgetRendered := widgetRendered;
      nome := "";
      telefone := "";
      lgpd := false;
      errors := map[];
      isSubmitting := false;
      serverError := None;
      token := None;
      succeeded := false;
    }

    /** The bot-check callbacks: a new token, or `null` when it expires or fails. */
    method SetToken(t: Option<string>)
      modifies this`token
      ensures token == t
    {
      token := t;
    }

    /** Typing the name clears the name error and no other. */
    method SetNome(value: string)
      modifies this`nome, this`errors
      ensures nome == value && errors == old(errors) - {Nome}
    {
      nome := value;
      errors := errors - {Nome};
    }

    /** `handleTelefoneChange`: the field keeps the masked value; only the phone error is cleared. */
    method HandleTelefoneChange(raw: string)
      modifies this`telefone, this`errors
      ensures telefone == PhoneMask(raw) && errors == old(errors) - {Telefone}
      ensures DigitsOnly(telefone) == FirstDigits(raw)
    {
      PhoneMaskDigits(raw);
      telefone := PhoneMask(raw);
      errors := errors - {Telefone};
    }

    /** Ticking or clearing the consent box clears only the consent error. */
    method SetLgpd(value: bool)
      modifies this`lgpd, this`errors
      ensures lgpd == value && errors == old(errors) - {Lgpd}
    {
      lgpd := value;
      errors := errors - {Lgpd};
    }

    /**
     * `handleSubmit`, with `outcome` standing for how `createLead` ends.
     * An invalid form sets the errors and sends nothing; a valid one is sent
     * as `Send` describes. The entered values stay either way.
     */
    method Submit(outcome: CreateOutcome) returns (request: Option<LeadCreate>)
      modifies this`errors, this`serverError, this`isSubmitting, this`token, this`succeeded, store, store.storage
      ensures errors == Validate(nome, telefone, lgpd)
      ensures request.Some? <==> errors == map[]
      ensures request.None? ==> serverError == None && isSubmitting == old(isSubmitting) && token == old(token)
      ensures request.None? ==> succeeded == old(succeeded)
      ensures request.None? ==> store.calls == old(store.calls) && store.storage.items == old(store.storage.items)
      ensures request.Some? ==> SentAs(outcome, request.value, old(token), old(store.storage.Get(FaixaStorageKey)))
      ensures request.Some? ==> Delivered(outcome, request.value, old(token), old(succeeded))
      ensures request.Some? && outcome.Created? ==> serverError == None
      ensures request.Some? ==> Stored(outcome, request.value, old(store.calls), old(store.storage.items), old(store.Lead()))
    {
      ghost var token0, stored0, succeeded0 := token, store.storage.Get(FaixaStorageKey), succeeded;
      ghost var calls0, items0, lead0 := store.calls, store.storage.items, store.Lead();
      var valid := CheckForm();
      if !valid {
        return None;
      }
      assert token == token0 && succeeded == succeeded0 && store.calls == calls0;
      assert store.storage.items == items0 && store.storage.Get(FaixaStorageKey) == stored0 && store.Lead() == lead0;
      ghost var errors0, nome0, telefone0, lgpd0 := errors, nome, telefone, lgpd;
      assert errors0 == Validate(nome0, telefone0, lgpd0);
      var sent := Send(outcome);
      request := Some(sent);
      assert errors == errors0 && nome == nome0 && telefone == telefone0 && lgpd == lgpd0;
      assert SentAs(outcome, sent, token0, stored0) && Delivered(outcome, sent, token0, succeeded0);
      assert Stored(outcome, sent, calls0, items0, lead0);
    }

    /** The first steps of `handleSubmit`: the server error is cleared and the form validated. */
    method CheckForm() returns (valid: bool)
      modifies this`errors, this`serverError
      ensures errors == Validate(nome, telefone, lgpd) && serverError == None
      ensures valid <==> errors == map[]
    {
      serverError := None;
      errors := Validate(nome, telefone, lgpd);
      valid := errors == map[];
    }

    /** What was posted: the entered values with the detected UF and the saved band. */
    ghost predicate SentAs(outcome: CreateOutcome, sent: LeadCreate, token0: Option<string>, stored: Option<string>)
      reads this, userUf
    {
      && !isSubmitting
      && sent == Request(nome, telefone, userUf.uf, SubmittedFaixa(stored), token0)
    }

    /** The visible outcome: closed on success; on failure an error message and no token. */
    ghost predicate Delivered(outcome: CreateOutcome, sent: LeadCreate, token0: Option<string>, succeeded0: bool)
      reads this
    {
      match outcome
      case Created(_, _) => succeeded && token == token0
      case Failed(message) =>
        && succeeded == succeeded0
        && serverError == Some(message.GetOr(SubmitFailed))
        && token == if widgetRendered then None else token0
    }

    /**
     * The lead store afterwards: on success it holds the new lead and every
     * listener was told once; on failure only an old band code was
     * rewritten and the lead is what it was.
     */
    ghost predicate Stored(outcome: CreateOutcome, sent: LeadCreate, calls0: seq<Listener>,
                           items0: map<string, string>, lead0: Option<LeadData>)
      reads this, store, store.storage
    {
      var migrated := MigratedItems(items0, store.storage.available);
      match outcome
      case Created(id, _) =>
        var lead := LeadData(IntToString(id), nome, sent.uf, sent.faixaEtaria, IndividualTipo);
        && store.calls == calls0 + store.listeners
        && store.storage.items == (if store.storage.available then Written(migrated, lead) else items0)
        && (store.storage.available ==> store.Lead() == Some(lead))
      case Failed(_) =>
        && store.calls == calls0
        && store.storage.items == migrated
        && store.Lead() == lead0
    }

    /** Sends a valid form and handles the answer. */
    method Send(outcome: CreateOutcome) returns (sent: LeadCreate)
      modifies this`serverError, this`isSubmitting, this`token, this`succeeded, store, store.storage
      ensures SentAs(outcome, sent, old(token), old(store.storage.Get(FaixaStorageKey)))
      ensures Delivered(outcome, sent, old(token), old(succeeded))
      ensures outcome.Created? ==> serverError == old(serverError)
      ensures Stored(outcome, sent, old(store.calls), old(store.storage.items), old(store.Lead()))
    {
      isSubmitting := true;
      var faixa := SavedFaixa();
      sent := Request(nome, telefone, userUf.uf, faixa, token);
      match outcome {
        case Created(id, _) =>
          store.SetLead(LeadData(IntToString(id), nome, sent.uf, faixa, IndividualTipo));
          succeeded := true;
        case Failed(message) =>
          if widgetRendered {
            token := None;
          }
          serverError := Some(message.GetOr(SubmitFailed));
          MigrationKeepsLead(old(store.storage.items), store.storage.available);
      }
      isSubmitting := false;
    }

    /** `getSavedFaixaEtaria() || "29 a 33 anos"`, rewriting an old band code in storage. */
    method SavedFaixa() returns (faixa: string)
      modifies store.storage
      ensures faixa == SubmittedFaixa(old(store.storage.Get(FaixaStorageKey)))
      ensures store.storage.available == old(store.storage.available)
      ensures store.storage.items == MigratedItems(old(store.storage.items), store.storage.available)
    {
      var saved := GetSavedFaixaEtaria(store.storage);
      faixa := if saved != "" then saved else DefaultFaixa;
    }
  }
}
