/**
 * The visitor's state (UF): an explicit choice kept in local storage wins;
 * otherwise it is guessed from the browser's IANA time zone.
 */
module UseUserUf {
  import opened Wrappers
  import opened WebStorage
  import Utils

  const UfStorageKey := "saudecomparador_uf"

  const TimezoneToUf: map<string, string> := map[
    "America/Rio_Branco" := "AC", "America/Maceio" := "AL", "America/Manaus" := "AM",
    "America/Macapa" := "AP", "America/Bahia" := "BA", "America/Fortaleza" := "CE",
    "America/Sao_Paulo" := "SP", "America/Campo_Grande" := "MS", "America/Cuiaba" := "MT",
    "America/Belem" := "PA", "America/Santarem" := "PA", "America/Recife" := "PE",
    "America/Araguaina" := "TO", "America/Noronha" := "PE", "America/Porto_Velho" := "RO",
    "America/Boa_Vista" := "RR", "America/Eirunepe" := "AM"]

  /** Zones shared by several states, mapped to the most populous one. */
  const TimezoneRegionFallback: map<string, string> := map[
    "America/Sao_Paulo" := "SP", "America/Fortaleza" := "CE", "America/Recife" := "PE",
    "America/Bahia" := "BA", "America/Manaus" := "AM", "America/Belem" := "PA"]

  /** `detectUfFromTimezone`; `tz` is `None` when `Intl` throws. */
  function DetectUf(tz: Option<string>): Option<string>
  {
    if tz.None? then None
    else if tz.value in TimezoneToUf && TimezoneToUf[tz.value] != "" then Some(TimezoneToUf[tz.value])
    else if tz.value in TimezoneRegionFallback && TimezoneRegionFallback[tz.value] != "" then Some(TimezoneRegionFallback[tz.value])
    else None
  }

  /**
   * Every detected UF is a Brazilian state code, and the fallback table never
   * changes the outcome: the main table alone already decides every zone.
   */
  lemma DetectUfFromMainTable(tz: Option<string>)
    ensures DetectUf(tz).Some? ==> DetectUf(tz).value in Utils.UfList
    ensures DetectUf(tz) == if tz.Some? && tz.value in TimezoneToUf then Some(TimezoneToUf[tz.value]) else None
  {
  }

  /** The initial state of `useUserUf`: a non-empty saved choice, else the detected UF, else `""`. */
  function InitialUf(saved: Option<string>, tz: Option<string>): (r: string)
    ensures saved.Some? && saved.value != "" ==> r == saved.value
    ensures (saved.None? || saved.value == "") ==> r == DetectUf(tz).GetOr("")
  {
    if saved.Some? && saved.value != "" then saved.value else DetectUf(tz).GetOr("")
  }

  /** One `useUserUf` instance: its own state, over the shared storage. */
  class UserUf {
    const storage: Storage
    var uf: string

    constructor (st: Storage, tz: Option<string>)
      ensures storage == st && uf == InitialUf(st.Get(UfStorageKey), tz)
    {
      storage := st;
      uf := InitialUf(st.Get(UfStorageKey), tz);
    }

    /** `setUf(value)`: updates this instance and stores a non-empty choice, or forgets an empty one. */
    method SetUf(value: string)
      modifies this, storage
      ensures uf == value
      ensures storage.available == old(storage.available)
      ensures storage.items == if !storage.available then old(storage.items)
                               else if value != "" then old(storage.items)[UfStorageKey := value]
                               else old(storage.items) - {UfStorageKey}
      ensures storage.available ==> storage.Get(UfStorageKey) == if value != "" then Some(value) else None
    {
      uf := value;
      var ok;
      if value != "" {
        ok := storage.SetItem(UfStorageKey, value);
      } else {
        ok := storage.RemoveItem(UfStorageKey);
      }
    }
  }
}
