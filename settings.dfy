/**
 * The admin-only system settings: the six SMTP settings (shown with the
 * password masked, saved with the masked password kept), the test-mail
 * precondition, and the global codec list (normalised, validated against the
 * known codecs, stored as a comma-joined string). The `system_settings`
 * table is a map from key to its nullable value.
 */
module Settings {
  import opened Wrappers
  import opened Text

  const SmtpKeys := ["smtp_host", "smtp_port", "smtp_tls", "smtp_user", "smtp_password", "smtp_from"]
  const PasswordKey := "smtp_password"
  const HostKey := "smtp_host"
  const Mask := "****"
  const CodecsKey := "global_codecs"

  /** Python truthiness of a nullable text: present and not empty. */
  predicate Truthy(v: Option<string>) { v.Some? && v.value != "" }

  /** `value or ""`. */
  function OrEmpty(v: Option<string>): (r: string)
    ensures Truthy(v) ==> r == v.value
    ensures !Truthy(v) ==> r == ""
  {
    if Truthy(v) then v.value else ""
  }

  /** The value shown for a key that has no row. */
  function DefaultFor(key: string): string {
    if key == "smtp_port" then "587" else if key == "smtp_tls" then "true" else ""
  }

  /** What GET /api/settings/ shows for one key: the password only as a mask. */
  function Shown(rows: map<string, Option<string>>, key: string): string {
    if key !in rows then DefaultFor(key)
    else if key == PasswordKey then (if Truthy(rows[key]) then Mask else "")
    else OrEmpty(rows[key])
  }

  /** The stored password never shows: a non-empty one is the mask, anything else the empty text. */
  lemma {:induction false} PasswordMasked(rows: map<string, Option<string>>)
    ensures Shown(rows, PasswordKey) == Mask <==> PasswordKey in rows && Truthy(rows[PasswordKey])
    ensures Shown(rows, PasswordKey) == "" <==> !(PasswordKey in rows && Truthy(rows[PasswordKey]))
  {
  }

  /** Keys without a row show "587" for the port, "true" for TLS and nothing for the rest. */
  lemma {:induction false} DefaultsShown(rows: map<string, Option<string>>)
    requires forall k :: k in SmtpKeys ==> k !in rows
    ensures Shown(rows, "smtp_port") == "587" && Shown(rows, "smtp_tls") == "true"
    ensures Shown(rows, "smtp_host") == "" && Shown(rows, "smtp_user") == ""
    ensures Shown(rows, PasswordKey) == "" && Shown(rows, "smtp_from") == ""
  {
  }

  /** The body of PUT /api/settings/; a field the client leaves out gets its declared default. */
  datatype SettingsUpdate = SettingsUpdate(
    host: Option<string>, port: Option<string>, tls: Option<string>,
    user: Option<string>, password: Option<string>, from: Option<string>)

  function DefaultUpdate(): SettingsUpdate {
    SettingsUpdate(Some(""), Some("587"), Some("true"), Some(""), Some(""), Some(""))
  }

  /** `data.model_dump()`: the six fields under their keys, in declaration order. */
  function Dump(data: SettingsUpdate): (d: seq<(string, Option<string>)>)
    ensures |d| == |SmtpKeys| && forall i :: 0 <= i < |d| ==> d[i].0 == SmtpKeys[i]
  {
    [("smtp_host", data.host), ("smtp_port", data.port), ("smtp_tls", data.tls),
     ("smtp_user", data.user), (PasswordKey, data.password), ("smtp_from", data.from)]
  }

  /** A masked password is replaced by the stored value when a password row exists. */
  function Retained(rows: map<string, Option<string>>, d: seq<(string, Option<string>)>): seq<(string, Option<string>)>
    requires |d| == |SmtpKeys|
  {
    if d[4].1 == Some(Mask) && PasswordKey in rows then d[4 := (PasswordKey, rows[PasswordKey])] else d
  }

  /** Each pair in turn sets its key's row to `value or ""`, inserting the row when it is missing. */
  function Upserted(rows: map<string, Option<string>>, pairs: seq<(string, Option<string>)>): map<string, Option<string>> {
    if pairs == [] then rows
    else
      var before := Upserted(rows, pairs[..|pairs| - 1]);
      var (k, v) := pairs[|pairs| - 1];
      before[k := Some(OrEmpty(v))]
  }

  /** The table after PUT /api/settings/. */
  function Saved(rows: map<string, Option<string>>, data: SettingsUpdate): map<string, Option<string>> {
    Upserted(rows, Retained(rows, Dump(data)))
  }

  /** An upsert touches exactly the keys it is given, the last pair for a key deciding its value. */
  lemma {:induction false} UpsertedKeys(rows: map<string, Option<string>>, pairs: seq<(string, Option<string>)>, k: string)
    ensures k in Upserted(rows, pairs) <==> k in rows || exists i :: 0 <= i < |pairs| && pairs[i].0 == k
    ensures (forall i :: 0 <= i < |pairs| ==> pairs[i].0 != k) && k in rows ==> Upserted(rows, pairs)[k] == rows[k]
  {
    if pairs != [] {
      var init := pairs[..|pairs| - 1];
      UpsertedKeys(rows, init, k);
      assert forall i :: 0 <= i < |init| ==> init[i] == pairs[i];
    }
  }

  lemma {:induction false} UpsertedLast(rows: map<string, Option<string>>, pairs: seq<(string, Option<string>)>, i: nat)
    requires i < |pairs| && forall j :: i < j < |pairs| ==> pairs[j].0 != pairs[i].0
    ensures pairs[i].0 in Upserted(rows, pairs) && Upserted(rows, pairs)[pairs[i].0] == Some(OrEmpty(pairs[i].1))
  {
    if i < |pairs| - 1 {
      var init := pairs[..|pairs| - 1];
      assert init[i] == pairs[i];
      UpsertedLast(rows, init, i);
    }
  }

  /**
   * Saving sets each SMTP key to the submitted value or "", with a masked
   * password keeping the stored one; every other row is left as it was.
   */
  lemma {:induction false} SavedRows(rows: map<string, Option<string>>, data: SettingsUpdate)
    ensures var after := Saved(rows, data); var d := Dump(data);
      && (forall i :: 0 <= i < |SmtpKeys| && i != 4 ==> SmtpKeys[i] in after && after[SmtpKeys[i]] == Some(OrEmpty(d[i].1)))
      && PasswordKey in after
      && after[PasswordKey] == Some(OrEmpty(if data.password == Some(Mask) && PasswordKey in rows then rows[PasswordKey] else data.password))
      && (forall k :: k !in SmtpKeys ==> (k in after <==> k in rows) && (k in rows ==> after[k] == rows[k]))
  {
    var d := Retained(rows, Dump(data));
    assert forall i :: 0 <= i < |d| ==> d[i].0 == SmtpKeys[i];
    forall i | 0 <= i < |SmtpKeys|
      ensures SmtpKeys[i] in Saved(rows, data) && Saved(rows, data)[SmtpKeys[i]] == Some(OrEmpty(d[i].1))
    {
      UpsertedLast(rows, d, i);
    }
    forall k | k !in SmtpKeys
      ensures (k in Saved(rows, data) <==> k in rows) && (k in rows ==> Saved(rows, data)[k] == rows[k])
    {
      UpsertedKeys(rows, d, k);
    }
  }

  /**
   * Saving back what the page was shown (the masked password included)
   * keeps a stored non-empty password.
   */
  lemma {:induction false} ShownPasswordKept(rows: map<string, Option<string>>, data: SettingsUpdate)
    requires PasswordKey in rows && Truthy(rows[PasswordKey])
    requires data.password == Some(Shown(rows, PasswordKey))
    ensures PasswordKey in Saved(rows, data) && Saved(rows, data)[PasswordKey] == rows[PasswordKey]
  {
    SavedRows(rows, data);
  }

  /** `full_settings`: each SMTP key's stored value, or "" without a row. */
  function Full(rows: map<string, Option<string>>, key: string): Option<string> {
    if key in rows then rows[key] else Some("")
  }

  /** The known codecs, as GET /api/settings/codecs lists them. */
  datatype Codec = Codec(id: string, name: string, description: string)

  const AvailableCodecs := [
    Codec("ulaw", "G.711 u-law", "Standard Nord-Amerika, 64 kbit/s"),
    Codec("alaw", "G.711 a-law", "Standard Europa, 64 kbit/s"),
    Codec("g722", "G.722", "HD-Audio, 64 kbit/s"),
    Codec("opus", "Opus", "Moderner Codec, variabel"),
    Codec("g729", "G.729", "Niedrige Bandbreite, 8 kbit/s"),
    Codec("gsm", "GSM", "GSM-Codec, 13 kbit/s")]

  predicate KnownCodec(c: string) {
    exists i :: 0 <= i < |AvailableCodecs| && AvailableCodecs[i].id == c
  }

  lemma {:induction false} KnownCodecs()
    ensures forall c :: KnownCodec(c) <==> c in {"ulaw", "alaw", "g722", "opus", "g729", "gsm"}
  {
    forall c | c in {"ulaw", "alaw", "g722", "opus", "g729", "gsm"} ensures KnownCodec(c) {
      if c == "ulaw" { assert AvailableCodecs[0].id == c; }
      else if c == "alaw" { assert AvailableCodecs[1].id == c; }
      else if c == "g722" { assert AvailableCodecs[2].id == c; }
      else if c == "opus" { assert AvailableCodecs[3].id == c; }
      else if c == "g729" { assert AvailableCodecs[4].id == c; }
      else { assert AvailableCodecs[5].id == c; }
    }
  }

  /** `[c.strip() for c in parts if c.strip()]`. */
  function Trimmed(parts: seq<string>): (r: seq<string>)
    ensures forall i :: 0 <= i < |r| ==> r[i] != "" && IsStripped(r[i])
  {
    if parts == [] then []
    else
      var c := Strip(parts[0]);
      assert IsStripped(c);
      (if c != "" then [c] else []) + Trimmed(parts[1..])
  }

  /** The codec list a submitted string stands for. */
  function Normalised(s: string): (r: seq<string>)
    ensures forall i :: 0 <= i < |r| ==> r[i] != "" && IsStripped(r[i]) && ',' !in r[i]
  {
    var parts := Split(s, ',');
    TrimmedExcludes(parts, ',');
    Trimmed(parts)
  }

  lemma {:induction false} TrimmedExcludes(parts: seq<string>, c: char)
    requires forall i :: 0 <= i < |parts| ==> c !in parts[i]
    ensures forall i :: 0 <= i < |Trimmed(parts)| ==> c !in Trimmed(parts)[i]
  {
    if parts != [] {
      StripExcludes(parts[0], c);
      TrimmedExcludes(parts[1..], c);
    }
  }

  /** The first codec, in list order, that is not a known one. */
  function FirstUnknown(codecs: seq<string>): (u: Option<string>)
    ensures u.None? <==> forall i :: 0 <= i < |codecs| ==> KnownCodec(codecs[i])
    ensures u.Some? ==> exists i :: 0 <= i < |codecs| && codecs[i] == u.value && !KnownCodec(u.value)
                          && forall j :: 0 <= j < i ==> KnownCodec(codecs[j])
  {
    if codecs == [] then None
    else if !KnownCodec(codecs[0]) then Some(codecs[0])
    else
      var u := FirstUnknown(codecs[1..]);
      assert forall i :: 0 <= i < |codecs[1..]| ==> codecs[1..][i] == codecs[i + 1];
      u
  }

  /** PUT /api/settings/codecs: 400 for an empty list or an unknown codec, otherwise the comma-joined list. */
  function CodecUpdate(input: string): (r: Reply<string>)
    ensures r.Ok? <==> Normalised(input) != [] && forall i :: 0 <= i < |Normalised(input)| ==> KnownCodec(Normalised(input)[i])
    ensures r.Fail? ==> r.status == BadRequest
    ensures r.Ok? ==> r.value == Join(Normalised(input), ',')
  {
    var codecs := Normalised(input);
    if codecs == [] then Fail(BadRequest, "Mindestens ein Codec muss ausgewählt sein")
    else match FirstUnknown(codecs)
      case Some(c) => Fail(BadRequest, "Unbekannter Codec: " + c)
      case None => Ok(Join(codecs, ','))
  }

  /** Stripped, non-empty pieces come through the trim unchanged. */
  lemma {:induction false} TrimmedNoop(parts: seq<string>)
    requires forall i :: 0 <= i < |parts| ==> parts[i] != "" && IsStripped(parts[i])
    ensures Trimmed(parts) == parts
  {
    if parts != [] {
      StripNoop(parts[0]);
      TrimmedNoop(parts[1..]);
      assert [parts[0]] + parts[1..] == parts;
    }
  }

  /** The stored codec string normalises to the very list that was validated: order and repeats kept. */
  lemma {:induction false} CodecRoundTrip(input: string)
    requires CodecUpdate(input).Ok?
    ensures Normalised(CodecUpdate(input).value) == Normalised(input)
  {
    var codecs := Normalised(input);
    SplitJoin(codecs, ',');
    TrimmedNoop(codecs);
  }

  /** What GET /api/settings/codecs answers. */
  datatype CodecSettings = CodecSettings(globalCodecs: Option<string>, availableCodecs: seq<Codec>)

  /** The `system_settings` table. */
  class SettingsStore {
    var rows: map<string, Option<string>>

    constructor (initial: map<string, Option<string>>)
      ensures rows == initial
    {
      rows := initial;
    }

    /** GET /api/settings/: exactly the six SMTP keys, each as it is shown. */
    method GetSettings() returns (result: map<string, string>)
      ensures forall k :: k in result <==> k in SmtpKeys
      ensures forall k :: k in result ==> result[k] == Shown(rows, k)
    {
      result := map[];
      var i := 0;
      while i < |SmtpKeys|
        invariant 0 <= i <= |SmtpKeys|
        invariant forall k :: k in result <==> k in SmtpKeys[..i]
        invariant forall k :: k in result ==> result[k] == Shown(rows, k)
      {
        var key := SmtpKeys[i];
        var value: string;
        if key in rows {
          if key == PasswordKey {
            value := if Truthy(rows[key]) then Mask else "";
          } else {
            value := OrEmpty(rows[key]);
          }
        } else if key == "smtp_port" {
          value := "587";
        } else if key == "smtp_tls" {
          value := "true";
        } else {
          value := "";
        }
        result := result[key := value];
        assert SmtpKeys[..i + 1] == SmtpKeys[..i] + [key];
        i := i + 1;
      }
      assert SmtpKeys[..i] == SmtpKeys;
    }

    /**
     * PUT /api/settings/; `writesMailConfig` says whether the mail
     * configuration is rewritten (a host is now set).
     */
    method UpdateSettings(data: SettingsUpdate) returns (writesMailConfig: bool)
      modifies this
      ensures rows == Saved(old(rows), data)
      ensures writesMailConfig == Truthy(Full(rows, HostKey))
    {
      var d := Dump(data);
      if d[4].1 == Some(Mask) && PasswordKey in rows {
        d := d[4 := (PasswordKey, rows[PasswordKey])];
      }
      assert d == Retained(old(rows), Dump(data));
      var i := 0;
      while i < |d|
        invariant 0 <= i <= |d|
        invariant rows == Upserted(old(rows), d[..i])
      {
        assert d[..i + 1][..i] == d[..i];
        var (key, value) := d[i];
        rows := rows[key := Some(OrEmpty(value))];
        i := i + 1;
      }
      assert d[..i] == d;
      writesMailConfig := Truthy(Full(rows, HostKey));
    }

    /** POST /api/settings/test-email; `sent` is what the mail sender reports. */
    method TestEmail(to: string, sent: bool) returns (r: Reply<string>)
      ensures !Truthy(Full(rows, HostKey)) ==> r == Fail(BadRequest, "SMTP ist nicht konfiguriert")
      ensures Truthy(Full(rows, HostKey)) && !sent ==> r.Fail? && r.status == ServerError
      ensures r.Ok? <==> Truthy(Full(rows, HostKey)) && sent
      ensures r.Ok? ==> r.value == "Test-E-Mail an " + to + " gesendet"
    {
      if !Truthy(Full(rows, HostKey)) {
        return Fail(BadRequest, "SMTP ist nicht konfiguriert");
      }
      if !sent {
        return Fail(ServerError, "E-Mail konnte nicht gesendet werden. Bitte SMTP-Einstellungen prüfen.");
      }
      return Ok("Test-E-Mail an " + to + " gesendet");
    }

    /** GET /api/settings/codecs; `defaultCodecs` is the configuration writer's default list. */
    method GetCodecSettings(defaultCodecs: string) returns (r: CodecSettings)
      ensures r.globalCodecs == if CodecsKey in rows then rows[CodecsKey] else Some(defaultCodecs)
      ensures r.availableCodecs == AvailableCodecs
    {
      r := CodecSettings(if CodecsKey in rows then rows[CodecsKey] else Some(defaultCodecs), AvailableCodecs);
    }

    /** PUT /api/settings/codecs: validation comes before the write, so a rejected list changes nothing. */
    method UpdateCodecSettings(input: string) returns (r: Reply<string>)
      modifies this
      ensures r == CodecUpdate(input)
      ensures rows == if r.Ok? then old(rows)[CodecsKey := Some(r.value)] else old(rows)
    {
      r := CodecUpdate(input);
      if r.Ok? {
        rows := rows[CodecsKey := Some(r.value)];
      }
    }
  }
}
