/** The synchronisation settings page: switching the periodic sync on and off, its interval,
    and the address of the donations server it pulls from. The settings themselves live in the
    database; what the page does is decide which update to send. */
module Sync {
  import opened Wrappers
  import opened Text
  import opened Calculations

  /** The stored settings row, as far as the page reads it. */
  datatype Settings = Settings(isSyncEnabled: bool, apiBaseUrl: Option<string>)

  /** One settings update sent to the database. An interval of `None` is NaN. */
  datatype SettingsUpdate = SetSyncEnabled(enabled: bool) | SetInterval(minutes: Option<int>) | SetApiUrl(url: string)

  /** The error notices the page can show instead of sending an update. */
  datatype SyncNotice = SettingsLoading | IntervalTooShort | IntervalTooLong | IntervalNotNumber | UrlMissing | UrlInvalid

  datatype TestResult = TestResult(success: bool, message: string, time: int)

  const DefaultApiUrl: string := Https + DefaultServerPath
  const Https: string := "https://"
  const DefaultServerPath: string := "matara.pro/nedarimplus/Reports/Manage3.aspx"
  const MinInterval: int := 5
  const MaxInterval: int := 60

  // ------------------------------------------------------------------
  // Switch and interval
  // ------------------------------------------------------------------

  /** `handleToggleSync`: the opposite of the stored switch, once the settings have loaded. */
  function ToggleSync(settings: Option<Settings>): (r: Result<SettingsUpdate, SyncNotice>)
    ensures settings.None? <==> r == Err(SettingsLoading)
    ensures settings.Some? ==> r == Ok(SetSyncEnabled(!settings.value.isSyncEnabled))
  {
    if settings.None? then Err(SettingsLoading)
    else Ok(SetSyncEnabled(!settings.value.isSyncEnabled))
  }

  /** `handleUpdateInterval` as written. `minutes` is `parseInt` of the number field, `None` for
      NaN; a comparison with NaN is false, so NaN passes both range checks. */
  function UpdateIntervalAsWritten(settings: Option<Settings>, minutes: Option<int>): Result<SettingsUpdate, SyncNotice> {
    if settings.None? then Err(SettingsLoading)
    else if minutes.Some? && minutes.value < MinInterval then Err(IntervalTooShort)
    else if minutes.Some? && minutes.value > MaxInterval then Err(IntervalTooLong)
    else Ok(SetInterval(minutes))
  }

  /** `handleUpdateInterval` with NaN refused, as the range checks evidently intend. */
  function UpdateInterval(settings: Option<Settings>, minutes: Option<int>): Result<SettingsUpdate, SyncNotice> {
    if settings.None? then Err(SettingsLoading)
    else if minutes.None? then Err(IntervalNotNumber)
    else if minutes.value < MinInterval then Err(IntervalTooShort)
    else if minutes.value > MaxInterval then Err(IntervalTooLong)
    else Ok(SetInterval(minutes))
  }

  /** For a number, the page sends the interval exactly when the settings have loaded and it
      lies between 5 and 60 minutes; otherwise it says which bound the number misses. */
  lemma IntervalAsWrittenForNumbers(settings: Option<Settings>, m: int)
    ensures var r := UpdateIntervalAsWritten(settings, Some(m));
      && (r.Ok? <==> settings.Some? && MinInterval <= m <= MaxInterval)
      && (r.Ok? ==> r.value == SetInterval(Some(m)))
      && (settings.Some? && m < MinInterval ==> r == Err(IntervalTooShort))
      && (settings.Some? && m > MaxInterval ==> r == Err(IntervalTooLong))
  {
  }

  /** An emptied number field (NaN) is sent as the new interval. */
  lemma NaNIntervalIsSent(s: Settings)
    ensures UpdateIntervalAsWritten(Some(s), None) == Ok(SetInterval(None))
  {
  }

  /** The corrected handler only ever sends an interval between 5 and 60 minutes, and agrees
      with the handler as written on every number. */
  lemma IntervalAlwaysInRange(settings: Option<Settings>, minutes: Option<int>)
    ensures var r := UpdateInterval(settings, minutes);
      && (r.Ok? ==> r.value.SetInterval? && r.value.minutes.Some? && MinInterval <= r.value.minutes.value <= MaxInterval)
      && (r.Ok? <==> settings.Some? && minutes.Some? && MinInterval <= minutes.value <= MaxInterval)
      && (minutes.Some? ==> r == UpdateIntervalAsWritten(settings, minutes))
  {
  }

  // ------------------------------------------------------------------
  // The server address
  // ------------------------------------------------------------------

  /** `isValidUrl`: non-empty once trimmed, http or https, and accepted by the platform's URL
      parser, which is the parameter `parses`. */
  predicate IsValidUrl(url: string, parses: string -> bool) {
    var normalized := Trim(url);
    && normalized != ""
    && (StartsWith(normalized, "http://") || StartsWith(normalized, Https))
    && parses(normalized)
  }

  /** What saving the typed address does: refuse it with a notice, or store it trimmed. */
  function SaveUrl(newUrl: string, parses: string -> bool): Result<string, SyncNotice> {
    var normalized := Trim(newUrl);
    if normalized == "" then Err(UrlMissing)
    else if !IsValidUrl(normalized, parses) then Err(UrlInvalid)
    else Ok(normalized)
  }

  /** An address is stored exactly when it is valid, and it is stored trimmed. A blank address
      is refused as missing and any other invalid one as invalid. */
  lemma SaveUrlIff(newUrl: string, parses: string -> bool)
    ensures var r := SaveUrl(newUrl, parses);
      && (r.Ok? <==> IsValidUrl(newUrl, parses))
      && (r.Ok? ==>
            && r.value == Trim(newUrl) && Trim(r.value) == r.value
            && (StartsWith(r.value, "http://") || StartsWith(r.value, Https)))
      && (r == Err(UrlMissing) <==> Trim(newUrl) == "")
  {
    TrimIdempotent(newUrl);
  }

  /** The default address is stored as it is whenever the platform parses it. */
  lemma DefaultUrlSaves(parses: string -> bool)
    requires parses(DefaultApiUrl)
    ensures SaveUrl(DefaultApiUrl, parses) == Ok(DefaultApiUrl)
  {
    assert Https[0] == 'h' && DefaultServerPath[|DefaultServerPath| - 1] == 'x';
    assert DefaultApiUrl[0] == 'h' && DefaultApiUrl[|DefaultApiUrl| - 1] == 'x';
    TrimOfTrimmed(DefaultApiUrl);
    assert DefaultApiUrl[..|Https|] == Https;
  }

  /** The page's own state, and what it has sent and shown so far. */
  class SyncPage {
    var showUrlModal: bool
    var newUrl: string
    var testResult: Option<TestResult>
    var updates: seq<SettingsUpdate>
    var notices: seq<SyncNotice>

    constructor()
      ensures !showUrlModal && newUrl == "" && testResult.None?
      ensures updates == [] && notices == []
    {
      showUrlModal := false;
      newUrl := "";
      testResult := None;
      updates := [];
      notices := [];
    }

    /** `handleOpenUrlModal`: start from the stored address, or the default when there is none. */
    method HandleOpenUrlModal(settings: Option<Settings>)
      modifies this
      ensures newUrl == if settings.Some? && settings.value.apiBaseUrl.Some? && settings.value.apiBaseUrl.value != ""
        then settings.value.apiBaseUrl.value else DefaultApiUrl
      ensures showUrlModal
      ensures testResult == old(testResult) && updates == old(updates) && notices == old(notices)
    {
      if settings.Some? && settings.value.apiBaseUrl.Some? && settings.value.apiBaseUrl.value != "" {
        newUrl := settings.value.apiBaseUrl.value;
      } else {
        newUrl := DefaultApiUrl;
      }
      showUrlModal := true;
    }

    /** `handleResetUrl`. */
    method HandleResetUrl()
      modifies this
      ensures newUrl == DefaultApiUrl
      ensures showUrlModal == old(showUrlModal) && testResult == old(testResult)
      ensures updates == old(updates) && notices == old(notices)
    {
      newUrl := DefaultApiUrl;
    }

    /** `handleSaveUrl`: a refused address shows its notice and changes nothing else; a valid
        one is sent trimmed, closes the dialog and forgets the last connection test. */
    method HandleSaveUrl(parses: string -> bool)
      modifies this
      ensures newUrl == old(newUrl)
      ensures match SaveUrl(old(newUrl), parses)
        case Err(n) =>
          && notices == old(notices) + [n] && updates == old(updates)
          && showUrlModal == old(showUrlModal) && testResult == old(testResult)
        case Ok(url) =>
          && updates == old(updates) + [SetApiUrl(url)] && notices == old(notices)
          && !showUrlModal && testResult.None?
    {
      var normalized := Trim(newUrl);
      if normalized == "" {
        notices := notices + [UrlMissing];
        return;
      }
      if !IsValidUrl(normalized, parses) {
        notices := notices + [UrlInvalid];
        return;
      }
      updates := updates + [SetApiUrl(normalized)];
      showUrlModal := false;
      testResult := None;
    }
  }

  // ------------------------------------------------------------------
  // Durations
  // ------------------------------------------------------------------

  /** `formatDuration`: whole milliseconds under a second, otherwise seconds to one decimal,
      which `toFixed(1)` renders and is the parameter `fixedSeconds`. */
  function FormatDuration(ms: int, fixedSeconds: string): string {
    if ms < 1000 then IntToString(ms) + "ms" else fixedSeconds + "s"
  }

  /** Under a second the text is the number of milliseconds followed by "ms", and reads back as
      that number. */
  lemma ShortDurationInMilliseconds(ms: nat, fixedSeconds: string)
    requires ms < 1000
    ensures var r := FormatDuration(ms, fixedSeconds);
      && EndsWith(r, "ms")
      && ParseNumber(r) == Some((ms, "ms"))
  {
    var r := FormatDuration(ms, fixedSeconds);
    ParseNumberRendered(ms, "ms");
    assert r[|r| - 2..] == "ms";
  }
}
