/**
 * The settings page of the web front end: the SMTP form filled from the
 * server's settings with its defaults, the TLS checkbox, saving the form,
 * the test mail with its local check for an address, and the codec
 * selection: parsed from the stored comma list, toggled one id at a time,
 * refused locally when empty and otherwise sent as a comma-joined list.
 */
module SettingsPage {
  import opened Wrappers
  import opened Text
  import opened Sql
  import Settings

  /** The form's six text fields. */
  datatype FormData = FormData(host: string, port: string, tls: string, user: string, password: string, from: string)

  const DefaultForm := FormData("", "587", "true", "", "", "")

  /** `data.key || fallback` on the settings object the server returned. */
  function Field(data: map<string, string>, key: string, fallback: string): (r: string)
    ensures key in data && data[key] != "" ==> r == data[key]
    ensures !(key in data && data[key] != "") ==> r == fallback
  {
    if key in data && data[key] != "" then data[key] else fallback
  }

  /** The form after a successful load: missing or empty values fall back to the initial form's. */
  function FormFrom(data: map<string, string>): FormData {
    FormData(Field(data, "smtp_host", DefaultForm.host), Field(data, "smtp_port", DefaultForm.port),
             Field(data, "smtp_tls", DefaultForm.tls), Field(data, "smtp_user", DefaultForm.user),
             Field(data, "smtp_password", DefaultForm.password), Field(data, "smtp_from", DefaultForm.from))
  }

  /** GET /api/settings/'s reply for the stored rows: each SMTP key with its shown value. */
  function ServerView(rows: map<string, Option<string>>): (data: map<string, string>)
    ensures forall k :: k in data <==> k in Settings.SmtpKeys
    ensures forall k :: k in data ==> data[k] == Settings.Shown(rows, k)
  {
    map k | k in Settings.SmtpKeys :: Settings.Shown(rows, k)
  }

  /**
   * Loading shows what the server shows, with "587" and "true" standing in
   * for an empty port and TLS value; a stored password appears masked and a
   * missing one as an empty field.
   */
  lemma {:induction false} LoadShowsServer(rows: map<string, Option<string>>)
    ensures var f := FormFrom(ServerView(rows));
      && f.host == Settings.Shown(rows, "smtp_host")
      && f.port == (if Settings.Shown(rows, "smtp_port") != "" then Settings.Shown(rows, "smtp_port") else "587")
      && f.tls == (if Settings.Shown(rows, "smtp_tls") != "" then Settings.Shown(rows, "smtp_tls") else "true")
      && f.user == Settings.Shown(rows, "smtp_user")
      && f.password == (if Settings.PasswordKey in rows && Settings.Truthy(rows[Settings.PasswordKey]) then Settings.Mask else "")
      && f.from == Settings.Shown(rows, "smtp_from")
  {
    ViewField(rows, "smtp_host", DefaultForm.host);
    ViewField(rows, "smtp_port", DefaultForm.port);
    ViewField(rows, "smtp_tls", DefaultForm.tls);
    ViewField(rows, "smtp_user", DefaultForm.user);
    ViewField(rows, "smtp_password", DefaultForm.password);
    ViewField(rows, "smtp_from", DefaultForm.from);
    ShownPassword(rows);
  }

  /** One field of the loaded form: the server's value, or the fallback when it is empty. */
  lemma {:induction false} ViewField(rows: map<string, Option<string>>, key: string, fallback: string)
    requires key in Settings.SmtpKeys
    ensures Field(ServerView(rows), key, fallback) == if Settings.Shown(rows, key) != "" then Settings.Shown(rows, key) else fallback
  {
    assert key in ServerView(rows);
  }

  /** The password is shown as the mask when it is set and as nothing otherwise. */
  lemma {:induction false} ShownPassword(rows: map<string, Option<string>>)
    ensures Settings.Shown(rows, Settings.PasswordKey)
      == if Settings.PasswordKey in rows && Settings.Truthy(rows[Settings.PasswordKey]) then Settings.Mask else ""
  {
  }

  /** The PUT body: every field, as sent. */
  function UpdateOf(f: FormData): (u: Settings.SettingsUpdate)
    ensures u.password == Some(f.password) && u.host == Some(f.host) && u.tls == Some(f.tls)
  {
    Settings.SettingsUpdate(Some(f.host), Some(f.port), Some(f.tls), Some(f.user), Some(f.password), Some(f.from))
  }

  /** Loading the form and saving it untouched keeps the stored password behind the mask. */
  lemma {:induction false} LoadSaveKeepsPassword(rows: map<string, Option<string>>)
    requires Settings.PasswordKey in rows && Settings.Truthy(rows[Settings.PasswordKey])
    ensures var saved := Settings.Saved(rows, UpdateOf(FormFrom(ServerView(rows))));
      Settings.PasswordKey in saved && saved[Settings.PasswordKey] == rows[Settings.PasswordKey]
  {
    LoadShowsServer(rows);
    Settings.PasswordMasked(rows);
    Settings.ShownPasswordKept(rows, UpdateOf(FormFrom(ServerView(rows))));
  }

  /** The checkbox is ticked exactly for the text "true". */
  predicate TlsChecked(f: FormData) { f.tls == "true" }

  /** Ticking or clearing the box stores "true" or "false". */
  function WithTls(f: FormData, checked: bool): (g: FormData)
    ensures TlsChecked(g) <==> checked
    ensures g.tls in ["true", "false"] && g == f.(tls := g.tls)
  {
    f.(tls := if checked then "true" else "false")
  }

  /** The form's five text inputs. */
  datatype TextInput = HostInput | PortInput | UserInput | PasswordInput | FromInput

  /** The value an input shows. */
  function TextOf(f: FormData, input: TextInput): string {
    match input
    case HostInput => f.host
    case PortInput => f.port
    case UserInput => f.user
    case PasswordInput => f.password
    case FromInput => f.from
  }

  /** `setFormData({ ...formData, smtp_…: e.target.value })`: the edited input holds the value, every other field keeps its own. */
  function WithText(f: FormData, input: TextInput, value: string): (g: FormData)
    ensures TextOf(g, input) == value
    ensures forall other :: other != input ==> TextOf(g, other) == TextOf(f, other)
    ensures g.tls == f.tls
  {
    match input
    case HostInput => f.(host := value)
    case PortInput => f.(port := value)
    case UserInput => f.(user := value)
    case PasswordInput => f.(password := value)
    case FromInput => f.(from := value)
  }

  /** Typing back what an input already shows leaves the form as it is. */
  lemma {:induction false} WithTextSame(f: FormData, input: TextInput)
    ensures WithText(f, input, TextOf(f, input)) == f
  {
    match input
    case HostInput =>
    case PortInput =>
    case UserInput =>
    case PasswordInput =>
    case FromInput =>
  }

  // ---------------------------------------------------------------- codecs

  predicate NonEmpty(s: string) { s != "" }

  /** `(global_codecs || '').split(',').filter(Boolean)`: no trimming, only empty pieces dropped. */
  function ParseCodecs(global: Option<string>): (r: seq<string>)
    ensures forall i :: 0 <= i < |r| ==> r[i] != "" && ',' !in r[i]
  {
    var s := if global.Some? then global.value else "";
    Select(Split(s, ','), NonEmpty)
  }

  /** The stored list the server accepted reads back as the selection it validated. */
  lemma {:induction false} ParseOfStored(input: string)
    requires Settings.CodecUpdate(input).Ok?
    ensures ParseCodecs(Some(Settings.CodecUpdate(input).value)) == Settings.Normalised(input)
  {
    var codecs := Settings.Normalised(input);
    SplitJoin(codecs, ',');
    SelectAll(codecs, NonEmpty);
  }

  /** `prev.includes(id) ? prev.filter(c => c !== id) : [...prev, id]`. */
  function ToggleCodec(prev: seq<string>, id: string): seq<string> {
    if id in prev then Select(prev, c => Other(id, c)) else prev + [id]
  }

  predicate Other(id: string, c: string) { c != id }

  lemma {:induction false} SelectSnoc(s: seq<string>, x: string, p: string -> bool)
    ensures Select(s + [x], p) == Select(s, p) + (if p(x) then [x] else [])
  {
    if s != [] {
      assert (s + [x])[1..] == s[1..] + [x];
      SelectSnoc(s[1..], x, p);
    }
  }

  /** A toggle flips the id's membership, and the other ids stay as they were, in the same order. */
  lemma {:induction false} ToggleFlips(prev: seq<string>, id: string)
    ensures id in ToggleCodec(prev, id) <==> id !in prev
    ensures Select(ToggleCodec(prev, id), c => Other(id, c)) == Select(prev, c => Other(id, c))
  {
    var next := ToggleCodec(prev, id);
    if id in prev {
      SelectAll(next, c => Other(id, c));
    } else {
      SelectSnoc(prev, id, c => Other(id, c));
    }
  }

  /** Toggling an id that is not selected, twice, gives the original selection back. */
  lemma {:induction false} ToggleTwice(prev: seq<string>, id: string)
    requires id !in prev
    ensures ToggleCodec(ToggleCodec(prev, id), id) == prev
  {
    SelectSnoc(prev, id, c => Other(id, c));
    SelectAll(prev, c => Other(id, c));
  }

  const NoCodecMessage := "Mindestens ein Codec muss ausgewählt sein"

  /** The page's local refusal of an empty selection says what the server would answer. */
  lemma {:induction false} EmptySelectionAsServer()
    ensures Settings.CodecUpdate(Join([], ',')) == Fail(BadRequest, NoCodecMessage)
  {
    assert Split("", ',') == [""];
    assert Strip("") == "";
  }

  /** Not empty, no surrounding space, no comma: what comes through the split and the trim unchanged. */
  predicate PlainWord(c: string) {
    c != "" && IsStripped(c) && ',' !in c
  }

  /** A known codec id is a plain word. */
  lemma {:induction false} KnownCodecShape(c: string)
    requires Settings.KnownCodec(c)
    ensures PlainWord(c)
  {
    var i :| 0 <= i < |Settings.AvailableCodecs| && Settings.AvailableCodecs[i].id == c;
  }

  lemma {:induction false} KnownSelectionPlain(selected: seq<string>)
    requires forall i :: 0 <= i < |selected| ==> Settings.KnownCodec(selected[i])
    ensures forall i :: 0 <= i < |selected| ==> PlainWord(selected[i])
  {
    forall i | 0 <= i < |selected| ensures PlainWord(selected[i]) {
      KnownCodecShape(selected[i]);
    }
  }

  /** Joining plain words and normalising the result gives the words back. */
  lemma {:induction false} NormalisedOfJoin(selected: seq<string>)
    requires selected != []
    requires forall i :: 0 <= i < |selected| ==> PlainWord(selected[i])
    ensures Split(Join(selected, ','), ',') == selected
    ensures Settings.Normalised(Join(selected, ',')) == selected
  {
    SplitJoin(selected, ',');
    Settings.TrimmedNoop(selected);
  }

  /** A non-empty selection of known codecs is stored as sent and reads back as the same selection. */
  lemma {:induction false} SaveCodecsAccepted(selected: seq<string>)
    requires selected != []
    requires forall i :: 0 <= i < |selected| ==> Settings.KnownCodec(selected[i])
    ensures Settings.CodecUpdate(Join(selected, ',')).Ok? && Settings.CodecUpdate(Join(selected, ',')).value == Join(selected, ',')
    ensures ParseCodecs(Some(Join(selected, ','))) == selected
  {
    KnownSelectionPlain(selected);
    NormalisedOfJoin(selected);
    AcceptedAsSent(Join(selected, ','), selected);
    ReadBackAsSent(Join(selected, ','), selected);
  }

  lemma {:induction false} AcceptedAsSent(joined: string, selected: seq<string>)
    requires selected != [] && joined == Join(selected, ',')
    requires Settings.Normalised(joined) == selected
    requires forall i :: 0 <= i < |selected| ==> Settings.KnownCodec(selected[i])
    ensures Settings.CodecUpdate(joined).Ok? && Settings.CodecUpdate(joined).value == joined
  {
  }

  lemma {:induction false} ReadBackAsSent(joined: string, selected: seq<string>)
    requires Split(joined, ',') == selected
    requires forall i :: 0 <= i < |selected| ==> PlainWord(selected[i])
    ensures ParseCodecs(Some(joined)) == selected
  {
    SelectAll(selected, NonEmpty);
  }

  // ---------------------------------------------------------------- the component

  /** How an awaited request ends: resolved, or rejected with an error whose message may be empty. */
  datatype Outcome = Resolved | Rejected(message: string)

  /** `err.message || fallback`. */
  function ErrorText(message: string, fallback: string): (r: string)
    ensures message != "" ==> r == message
    ensures message == "" ==> r == fallback
  {
    if message != "" then message else fallback
  }

  /** The two replies of the initial load, when both arrive. */
  datatype Loaded = Loaded(settings: map<string, string>, codecs: Settings.CodecSettings)

  const LoadError := "Einstellungen konnten nicht geladen werden"
  const NoAddressMessage := "Bitte Empfänger-Adresse eingeben"

  class SettingsPageState {
    var loading: bool
    var saving: bool
    var testing: bool
    var savingCodecs: bool
    var error: string
    var success: string
    var testEmail: string
    var showPassword: bool
    var formData: FormData
    var availableCodecs: seq<Settings.Codec>
    var selectedCodecs: seq<string>

    /** The first render. */
    constructor ()
      ensures loading && !saving && !testing && !savingCodecs
      ensures error == "" && success == "" && testEmail == "" && !showPassword
      ensures formData == DefaultForm && availableCodecs == [] && selectedCodecs == []
    {
      loading, saving, testing, savingCodecs := true, false, false, false;
      error, success, testEmail := "", "", "";
      showPassword := false;
      formData := DefaultForm;
      availableCodecs, selectedCodecs := [], [];
    }

    /** The load's end: both replies fill the form and the codec lists, a failure sets the error; loading ends. */
    method FinishLoad(reply: Option<Loaded>)
      modifies this
      ensures !loading
      ensures reply.Some? ==> (formData == FormFrom(reply.value.settings)
                               && availableCodecs == reply.value.codecs.availableCodecs
                               && selectedCodecs == ParseCodecs(reply.value.codecs.globalCodecs)
                               && error == old(error))
      ensures reply.None? ==> (error == LoadError && formData == old(formData)
                               && availableCodecs == old(availableCodecs) && selectedCodecs == old(selectedCodecs))
      ensures success == old(success) && saving == old(saving) && testing == old(testing)
      ensures savingCodecs == old(savingCodecs) && testEmail == old(testEmail) && showPassword == old(showPassword)
    {
      if reply.Some? {
        formData := FormFrom(reply.value.settings);
        availableCodecs := reply.value.codecs.availableCodecs;
        selectedCodecs := ParseCodecs(reply.value.codecs.globalCodecs);
      } else {
        error := LoadError;
      }
      loading := false;
    }

    /** The TLS checkbox's change handler. */
    method SetTls(checked: bool)
      modifies this
      ensures formData == WithTls(old(formData), checked) && TlsChecked(formData) == checked
      ensures error == old(error) && success == old(success) && selectedCodecs == old(selectedCodecs)
      ensures loading == old(loading) && saving == old(saving) && testing == old(testing)
      ensures savingCodecs == old(savingCodecs) && testEmail == old(testEmail) && showPassword == old(showPassword)
      ensures availableCodecs == old(availableCodecs)
    {
      formData := WithTls(formData, checked);
    }

    /** A text input's change handler. */
    method SetText(input: TextInput, value: string)
      modifies this
      ensures formData == WithText(old(formData), input, value)
      ensures error == old(error) && success == old(success) && selectedCodecs == old(selectedCodecs)
      ensures loading == old(loading) && saving == old(saving) && testing == old(testing)
      ensures savingCodecs == old(savingCodecs) && testEmail == old(testEmail) && showPassword == old(showPassword)
      ensures availableCodecs == old(availableCodecs)
    {
      formData := WithText(formData, input, value);
    }

    /** The recipient input of the test mail. */
    method SetTestEmail(value: string)
      modifies this
      ensures testEmail == value
      ensures formData == old(formData) && error == old(error) && success == old(success)
      ensures loading == old(loading) && saving == old(saving) && testing == old(testing)
      ensures savingCodecs == old(savingCodecs) && showPassword == old(showPassword)
      ensures availableCodecs == old(availableCodecs) && selectedCodecs == old(selectedCodecs)
    {
      testEmail := value;
    }

    /** The eye button beside the password: it flips whether the password input shows its text. */
    method ToggleShowPassword()
      modifies this
      ensures showPassword == !old(showPassword)
      ensures formData == old(formData) && error == old(error) && success == old(success) && testEmail == old(testEmail)
      ensures loading == old(loading) && saving == old(saving) && testing == old(testing)
      ensures savingCodecs == old(savingCodecs)
      ensures availableCodecs == old(availableCodecs) && selectedCodecs == old(selectedCodecs)
    {
      showPassword := !showPassword;
    }

    /** Submitting the form: messages cleared, saving set, and the whole form sent. */
    method StartSave() returns (body: Settings.SettingsUpdate)
      modifies this
      ensures error == "" && success == "" && saving
      ensures body == UpdateOf(formData) && formData == old(formData)
      ensures testing == old(testing) && savingCodecs == old(savingCodecs) && selectedCodecs == old(selectedCodecs)
      ensures loading == old(loading) && testEmail == old(testEmail) && showPassword == old(showPassword)
      ensures availableCodecs == old(availableCodecs)
    {
      error, success := "", "";
      saving := true;
      body := UpdateOf(formData);
    }

    method FinishSave(outcome: Outcome)
      modifies this
      ensures !saving
      ensures outcome.Resolved? ==> success == "Einstellungen gespeichert" && error == old(error)
      ensures outcome.Rejected? ==> error == ErrorText(outcome.message, "Fehler beim Speichern") && success == old(success)
      ensures formData == old(formData) && selectedCodecs == old(selectedCodecs)
      ensures testing == old(testing) && savingCodecs == old(savingCodecs)
      ensures loading == old(loading) && testEmail == old(testEmail) && showPassword == old(showPassword)
      ensures availableCodecs == old(availableCodecs)
    {
      if outcome.Resolved? {
        success := "Einstellungen gespeichert";
      } else {
        error := ErrorText(outcome.message, "Fehler beim Speichern");
      }
      saving := false;
    }

    /** The test-mail button: without an address only the error is set and nothing is sent. */
    method StartTestEmail() returns (to: Option<string>)
      modifies this
      ensures to.None? <==> old(testEmail) == ""
      ensures to.None? ==> error == NoAddressMessage && success == old(success) && testing == old(testing)
      ensures to.Some? ==> to.value == old(testEmail) && error == "" && success == "" && testing
      ensures testEmail == old(testEmail) && formData == old(formData) && saving == old(saving)
      ensures savingCodecs == old(savingCodecs) && selectedCodecs == old(selectedCodecs)
      ensures loading == old(loading) && showPassword == old(showPassword) && availableCodecs == old(availableCodecs)
    {
      if testEmail == "" {
        error := NoAddressMessage;
        return None;
      }
      error, success := "", "";
      testing := true;
      to := Some(testEmail);
    }

    /** The test mail's reply, for the address the request was sent to. */
    method FinishTestEmail(to: string, outcome: Outcome)
      modifies this
      ensures !testing
      ensures outcome.Resolved? ==> success == "Test-E-Mail an " + to + " gesendet" && error == old(error)
      ensures outcome.Rejected? ==> (error == ErrorText(outcome.message, "Test-E-Mail konnte nicht gesendet werden")
                                     && success == old(success))
      ensures formData == old(formData) && saving == old(saving) && savingCodecs == old(savingCodecs)
      ensures selectedCodecs == old(selectedCodecs) && testEmail == old(testEmail)
      ensures loading == old(loading) && showPassword == old(showPassword) && availableCodecs == old(availableCodecs)
    {
      if outcome.Resolved? {
        success := "Test-E-Mail an " + to + " gesendet";
      } else {
        error := ErrorText(outcome.message, "Test-E-Mail konnte nicht gesendet werden");
      }
      testing := false;
    }

    /** A codec checkbox. */
    method Toggle(id: string)
      modifies this
      ensures selectedCodecs == ToggleCodec(old(selectedCodecs), id)
      ensures error == old(error) && success == old(success) && formData == old(formData)
      ensures savingCodecs == old(savingCodecs) && saving == old(saving) && testing == old(testing)
      ensures loading == old(loading) && testEmail == old(testEmail) && showPassword == old(showPassword)
      ensures availableCodecs == old(availableCodecs)
    {
      selectedCodecs := ToggleCodec(selectedCodecs, id);
    }

    /** Saving the codecs: an empty selection only sets the error; otherwise the comma-joined list is sent. */
    method StartSaveCodecs() returns (body: Option<string>)
      modifies this
      ensures body.None? <==> old(selectedCodecs) == []
      ensures body.None? ==> error == NoCodecMessage && success == old(success) && savingCodecs == old(savingCodecs)
      ensures body.Some? ==> body.value == Join(old(selectedCodecs), ',') && error == "" && success == "" && savingCodecs
      ensures selectedCodecs == old(selectedCodecs) && formData == old(formData)
      ensures saving == old(saving) && testing == old(testing)
      ensures loading == old(loading) && testEmail == old(testEmail) && showPassword == old(showPassword)
      ensures availableCodecs == old(availableCodecs)
    {
      if |selectedCodecs| == 0 {
        error := NoCodecMessage;
        return None;
      }
      error, success := "", "";
      savingCodecs := true;
      body := Some(Join(selectedCodecs, ','));
    }

    method FinishSaveCodecs(outcome: Outcome)
      modifies this
      ensures !savingCodecs
      ensures outcome.Resolved? ==> success == "Codec-Einstellungen gespeichert" && error == old(error)
      ensures outcome.Rejected? ==> (error == ErrorText(outcome.message, "Fehler beim Speichern der Codec-Einstellungen")
                                     && success == old(success))
      ensures selectedCodecs == old(selectedCodecs) && formData == old(formData)
      ensures saving == old(saving) && testing == old(testing)
      ensures loading == old(loading) && testEmail == old(testEmail) && showPassword == old(showPassword)
      ensures availableCodecs == old(availableCodecs)
    {
      if outcome.Resolved? {
        success := "Codec-Einstellungen gespeichert";
      } else {
        error := ErrorText(outcome.message, "Fehler beim Speichern der Codec-Einstellungen");
      }
      savingCodecs := false;
    }
  }
}
