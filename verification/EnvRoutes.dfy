/** The requests that edit `.env`: one setting from the admin page, the broker credentials as one
 * sequence of edits threaded through the text and written at the end.
 */
module EnvRoutes {
  import opened Wrappers
  import opened Text
  import opened Lines
  import opened EnvText
  import opened EnvSubstitution
  import opened EnvLines
  import opened EnvEdits

  /** A credentials request, its fields stripped; an empty field keeps what is there. */
  datatype Request = Request(apiKey: string, apiSecret: string, apiKeyMarket: string, apiSecretMarket: string,
                             redirectUrl: string, ngrok: Option<string>, hostServer: string, websocketUrl: string)

  /** The address checks of the route, as parameters. */
  datatype Checks = Checks(redirect: Request -> bool, host: string -> bool, websocket: string -> bool)

  datatype Reply = Rejected | Unreadable | TemplateError | WriteFailed | Updated

  /** How writing the file goes: it works, the file cannot be opened, or the text stops after so many
    * characters, the old content being gone. */
  datatype Write = Works | CannotOpen | Stops(after: nat)

  /** What the file holds after this text was written over it. */
  function Written(before: Option<string>, text: string, w: Write): Option<string> {
    match w
    case Works => Some(text)
    case CannotOpen => before
    case Stops(n) => Some(if n < |text| then text[..n] else text)
  }

  function Given(key: string, value: string): seq<Edit> {
    if value == "" then [] else [Edit(Credentials, key, value)]
  }

  function NgrokValue(raw: string): string {
    if Upper(Strip(raw)) == "TRUE" then "TRUE" else "FALSE"
  }

  function BrokerEdits(r: Request): seq<Edit> {
    Given("BROKER_API_KEY", r.apiKey)
    + Given("BROKER_API_SECRET", r.apiSecret)
    + Given("BROKER_API_KEY_MARKET", r.apiKeyMarket)
    + Given("BROKER_API_SECRET_MARKET", r.apiSecretMarket)
  }

  function NgrokEdits(r: Request): seq<Edit> {
    if r.ngrok.Some? then Given("NGROK_ALLOW", NgrokValue(r.ngrok.value)) else []
  }

  function EditsOf(r: Request): seq<Edit> {
    BrokerEdits(r)
    + Given("REDIRECT_URL", r.redirectUrl)
    + NgrokEdits(r)
    + Given("HOST_SERVER", r.hostServer)
    + Given("WEBSOCKET_URL", r.websocketUrl)
  }

  predicate AddressesPass(r: Request, checks: Checks) {
    && (r.redirectUrl != "" ==> checks.redirect(r))
    && (r.hostServer != "" ==> checks.host(r.hostServer))
    && (r.websocketUrl != "" ==> checks.websocket(r.websocketUrl))
  }

  lemma {:induction false} EditAllAppend(t: string, edits: seq<Edit>, more: seq<Edit>, expand: string -> Option<string>)
    ensures EditAll(t, edits + more, expand)
         == match EditAll(t, edits, expand) case None => None case Some(after) => EditAll(after, more, expand)
    decreases |edits|
  {
    if edits == [] {
      assert edits + more == more;
    } else {
      assert (edits + more)[1..] == edits[1..] + more;
      var after := EditText(t, edits[0], expand);
      if after.Some? { EditAllAppend(after.value, edits[1..], more, expand); }
    }
  }

  method EditIfGiven(before: Option<string>, key: string, value: string, expand: string -> Option<string>,
                     ghost t: string, ghost edits: seq<Edit>) returns (after: Option<string>)
    requires before == EditAll(t, edits, expand)
    ensures after == EditAll(t, edits + Given(key, value), expand)
  {
    EditAllAppend(t, edits, Given(key, value), expand);
    if value == "" || before.None? {
      assert value == "" ==> edits + Given(key, value) == edits;
      return before;
    }
    after := UpdateEnvValue(before.value, key, value, expand);
    assert Given(key, value)[1..] == [];
    assert EditAll(before.value, Given(key, value), expand) == after;
  }

  method EditBroker(t: string, r: Request, expand: string -> Option<string>) returns (text: Option<string>)
    ensures text == EditAll(t, BrokerEdits(r), expand)
  {
    ghost var none: seq<Edit> := [];
    ghost var one := none + Given("BROKER_API_KEY", r.apiKey);
    ghost var two := one + Given("BROKER_API_SECRET", r.apiSecret);
    ghost var three := two + Given("BROKER_API_KEY_MARKET", r.apiKeyMarket);
    text := EditIfGiven(Some(t), "BROKER_API_KEY", r.apiKey, expand, t, none);
    text := EditIfGiven(text, "BROKER_API_SECRET", r.apiSecret, expand, t, one);
    text := EditIfGiven(text, "BROKER_API_KEY_MARKET", r.apiKeyMarket, expand, t, two);
    text := EditIfGiven(text, "BROKER_API_SECRET_MARKET", r.apiSecretMarket, expand, t, three);
    assert three + Given("BROKER_API_SECRET_MARKET", r.apiSecretMarket) == BrokerEdits(r);
  }

  method EditNgrok(before: Option<string>, r: Request, expand: string -> Option<string>,
                   ghost t: string, ghost edits: seq<Edit>) returns (after: Option<string>)
    requires before == EditAll(t, edits, expand)
    ensures after == EditAll(t, edits + NgrokEdits(r), expand)
  {
    if r.ngrok.None? {
      assert edits + NgrokEdits(r) == edits;
      return before;
    }
    after := EditIfGiven(before, "NGROK_ALLOW", NgrokValue(r.ngrok.value), expand, t, edits);
  }

  predicate GivesNothing(r: Request) {
    && r.apiKey == "" && r.apiSecret == "" && r.apiKeyMarket == "" && r.apiSecretMarket == ""
    && r.redirectUrl == "" && r.ngrok.None? && r.hostServer == "" && r.websocketUrl == ""
  }

  lemma NothingToEdit(r: Request)
    ensures EditsOf(r) == [] <==> GivesNothing(r)
  {
  }

  /** The file; none when it is missing or cannot be read. */
  class EnvFile {
    var content: Option<string>

    /** One setting: a malformed key or a value that needs escaping is refused before the file is read. */
    method SetEnvValue(key: string, value: string) returns (r: Saving)
      modifies this
      ensures r == if !IsEnvKey(key) then BadKey
                   else if '\'' in value || '\\' in value || '\n' in value then BadValue
                   else if old(content).None? then NoFile else Saved
      ensures content == if r == Saved then Some(SetInText(old(content).value, key, value)) else old(content)
      ensures r == Saved && IsName(key) && PlainValue(value) && AllClean(Pieces(old(content).value))
              && Readers(Pieces(old(content).value), key) <= 1 ==>
                ReadEnv(content.value) == ReadEnv(old(content).value)[key := value]
    {
      if !IsEnvKey(key) { return BadKey; }
      if '\'' in value || '\\' in value || '\n' in value { return BadValue; }
      if content.None? { return NoFile; }
      var after := EditLines(content.value, key, value);
      ghost var pieces := Pieces(content.value);
      if IsName(key) && PlainValue(value) && AllClean(pieces) && Readers(pieces, key) <= 1 {
        SettingIsRead(pieces, key, value);
      }
      content := Some(after);
      return Saved;
    }

    /** The credentials: every edit is made on the text, and only a request that passes every check and
      * edits something writes the file, once. The file is written in place: a write that stops leaves
      * the beginning of the new text. */
    method UpdateCredentials(r: Request, checks: Checks, expand: string -> Option<string>, write: Write)
      returns (reply: Reply)
      modifies this
      ensures reply.Updated? || reply.WriteFailed?
         <==> && (r.redirectUrl != "" ==> checks.redirect(r))
              && (r.hostServer != "" ==> checks.host(r.hostServer))
              && (r.websocketUrl != "" ==> checks.websocket(r.websocketUrl))
              && (r.apiKey != "" || r.apiSecret != "" || r.apiKeyMarket != "" || r.apiSecretMarket != ""
                  || r.redirectUrl != "" || r.ngrok.Some? || r.hostServer != "" || r.websocketUrl != "")
              && old(content).Some? && EditAll(old(content).value, EditsOf(r), expand).Some?
      ensures reply.Updated? ==> content.Some? && ReadsAsAsked(old(content).value, content.value, r, expand)
      ensures reply.Updated? ==> write.Works?
      ensures reply.WriteFailed? ==> !write.Works?
      ensures content == if reply.Updated? || reply.WriteFailed?
                         then Written(old(content), EditAll(old(content).value, EditsOf(r), expand).value, write)
                         else old(content)
    {
      if r.redirectUrl != "" && !checks.redirect(r) { return Rejected; }
      if content.None? { return Unreadable; }
      ghost var t := content.value;
      ghost var one := BrokerEdits(r) + Given("REDIRECT_URL", r.redirectUrl);
      ghost var two := one + NgrokEdits(r);
      ghost var three := two + Given("HOST_SERVER", r.hostServer);
      ghost var four := three + Given("WEBSOCKET_URL", r.websocketUrl);
      var text := EditBroker(content.value, r, expand);
      text := EditIfGiven(text, "REDIRECT_URL", r.redirectUrl, expand, t, BrokerEdits(r));
      text := EditNgrok(text, r, expand, t, one);
      EditAllAppend(t, two, Given("HOST_SERVER", r.hostServer), expand);
      EditAllAppend(t, three, Given("WEBSOCKET_URL", r.websocketUrl), expand);
      if text.None? { return TemplateError; }
      if r.hostServer != "" && !checks.host(r.hostServer) { return Rejected; }
      text := EditIfGiven(text, "HOST_SERVER", r.hostServer, expand, t, two);
      if text.None? { return TemplateError; }
      if r.websocketUrl != "" && !checks.websocket(r.websocketUrl) { return Rejected; }
      text := EditIfGiven(text, "WEBSOCKET_URL", r.websocketUrl, expand, t, three);
      NothingToEdit(r);
      if text.None? { return TemplateError; }
      if GivesNothing(r) { return Rejected; }
      AskedIsRead(t, text.value, r, expand);
      content := Written(content, text.value, write);
      return if write.Works? then Updated else WriteFailed;
    }
  }

  // ---------------------------------------------------------------- what a request leaves readable

  /** No key is edited twice. */
  predicate DistinctKeys(edits: seq<Edit>) {
    forall i, j :: 0 <= i < j < |edits| ==> edits[i].key != edits[j].key
  }

  lemma {:induction false} AppliedElsewhere(m: map<string, string>, edits: seq<Edit>, key: string)
    requires forall i :: 0 <= i < |edits| ==> edits[i].key != key
    ensures (key in Applied(m, edits) <==> key in m) && (key in m ==> Applied(m, edits)[key] == m[key])
    decreases |edits|
  {
    if edits != [] {
      assert forall i :: 0 <= i < |edits| - 1 ==> edits[1..][i] == edits[i + 1];
      AppliedElsewhere(m[edits[0].key := edits[0].value], edits[1..], key);
    }
  }

  lemma {:induction false} AppliedAt(m: map<string, string>, edits: seq<Edit>, n: nat)
    requires n < |edits| && DistinctKeys(edits)
    ensures edits[n].key in Applied(m, edits) && Applied(m, edits)[edits[n].key] == edits[n].value
    decreases |edits|
  {
    var rest := edits[1..];
    assert forall i :: 0 <= i < |rest| ==> rest[i] == edits[i + 1];
    var after := m[edits[0].key := edits[0].value];
    if n == 0 {
      AppliedElsewhere(after, rest, edits[0].key);
    } else {
      AppliedAt(after, rest, n - 1);
    }
  }

  /** The values a request gives are all plain. */
  predicate PlainRequest(r: Request) {
    && PlainValue(r.apiKey) && PlainValue(r.apiSecret) && PlainValue(r.apiKeyMarket) && PlainValue(r.apiSecretMarket)
    && PlainValue(r.redirectUrl) && PlainValue(r.hostServer) && PlainValue(r.websocketUrl)
  }

  /** The keys of the route, in order. */
  const KEYS := ["BROKER_API_KEY", "BROKER_API_SECRET", "BROKER_API_KEY_MARKET", "BROKER_API_SECRET_MARKET",
                 "REDIRECT_URL", "NGROK_ALLOW", "HOST_SERVER", "WEBSOCKET_URL"]

  /** Edits of some of the keys from the `n`-th on, in order, with plain values. */
  ghost predicate InKeyOrder(edits: seq<Edit>, n: nat)
    decreases |edits|
  {
    edits != [] ==>
      exists k :: n <= k < |KEYS| && edits[0].key == KEYS[k] && PlainValue(edits[0].value)
                  && InKeyOrder(edits[1..], k + 1)
  }

  lemma KeysAreNames()
    ensures forall k :: 0 <= k < |KEYS| ==> IsName(KEYS[k])
    ensures forall j, k :: 0 <= j < k < |KEYS| ==> KEYS[j] != KEYS[k]
  {
    assert KEYS[5][0] != KEYS[6][0];
  }

  lemma {:induction false} InKeyOrderIsDistinct(edits: seq<Edit>, n: nat)
    requires InKeyOrder(edits, n)
    ensures DistinctKeys(edits)
    ensures forall i :: 0 <= i < |edits| ==> PlainEdit(edits[i])
    ensures forall i :: 0 <= i < |edits| ==> exists k :: n <= k < |KEYS| && edits[i].key == KEYS[k]
    decreases |edits|
  {
    if edits != [] {
      KeysAreNames();
      var k :| n <= k < |KEYS| && edits[0].key == KEYS[k] && PlainValue(edits[0].value)
               && InKeyOrder(edits[1..], k + 1);
      InKeyOrderIsDistinct(edits[1..], k + 1);
      assert edits == [edits[0]] + edits[1..];
    }
  }

  lemma GivenInOrder(n: nat, value: string, rest: seq<Edit>)
    requires n < |KEYS| && PlainValue(value) && InKeyOrder(rest, n + 1)
    ensures InKeyOrder(Given(KEYS[n], value) + rest, n)
  {
    var edits := Given(KEYS[n], value) + rest;
    if value == "" {
      assert edits == rest;
      LaterIsInOrder(rest, n);
    } else {
      assert edits[1..] == rest && edits[0].key == KEYS[n];
    }
  }

  lemma LaterIsInOrder(edits: seq<Edit>, n: nat)
    requires InKeyOrder(edits, n + 1)
    ensures InKeyOrder(edits, n)
  {
    if edits != [] {
      var k :| n + 1 <= k < |KEYS| && edits[0].key == KEYS[k] && PlainValue(edits[0].value)
               && InKeyOrder(edits[1..], k + 1);
      assert n <= k < |KEYS|;
    }
  }

  lemma NgrokIsPlain(raw: string)
    ensures PlainValue(NgrokValue(raw))
  {
    assert PlainValue("TRUE") && PlainValue("FALSE");
  }

  lemma Nested(a: seq<Edit>, b: seq<Edit>, c: seq<Edit>, d: seq<Edit>, rest: seq<Edit>)
    ensures a + b + c + d + rest == a + (b + (c + (d + rest)))
  {
  }

  lemma BrokerInOrder(r: Request, rest: seq<Edit>)
    requires PlainRequest(r) && InKeyOrder(rest, 4)
    ensures InKeyOrder(BrokerEdits(r) + rest, 0)
  {
    var e3 := Given(KEYS[3], r.apiSecretMarket) + rest;
    var e2 := Given(KEYS[2], r.apiKeyMarket) + e3;
    var e1 := Given(KEYS[1], r.apiSecret) + e2;
    assert InKeyOrder(e3, 3) by { GivenInOrder(3, r.apiSecretMarket, rest); }
    assert InKeyOrder(e2, 2) by { GivenInOrder(2, r.apiKeyMarket, e3); }
    assert InKeyOrder(e1, 1) by { GivenInOrder(1, r.apiSecret, e2); }
    assert InKeyOrder(Given(KEYS[0], r.apiKey) + e1, 0) by { GivenInOrder(0, r.apiKey, e1); }
    Nested(Given(KEYS[0], r.apiKey), Given(KEYS[1], r.apiSecret), Given(KEYS[2], r.apiKeyMarket),
           Given(KEYS[3], r.apiSecretMarket), rest);
  }

  function SiteEdits(r: Request): seq<Edit> {
    Given("REDIRECT_URL", r.redirectUrl) + (NgrokEdits(r) + (Given("HOST_SERVER", r.hostServer)
                                                             + Given("WEBSOCKET_URL", r.websocketUrl)))
  }

  lemma SiteInOrder(r: Request)
    requires PlainRequest(r)
    ensures InKeyOrder(SiteEdits(r), 4)
  {
    var e7 := Given(KEYS[7], r.websocketUrl);
    GivenInOrder(7, r.websocketUrl, []);
    assert e7 + [] == e7;
    var e6 := Given(KEYS[6], r.hostServer) + e7;
    GivenInOrder(6, r.hostServer, e7);
    var e5 := NgrokEdits(r) + e6;
    if r.ngrok.Some? {
      NgrokIsPlain(r.ngrok.value);
      GivenInOrder(5, NgrokValue(r.ngrok.value), e6);
    } else {
      assert e5 == e6;
      LaterIsInOrder(e6, 5);
    }
    GivenInOrder(4, r.redirectUrl, e5);
  }

  lemma EditsAreInOrder(r: Request)
    requires PlainRequest(r)
    ensures InKeyOrder(EditsOf(r), 0)
  {
    SiteInOrder(r);
    BrokerInOrder(r, SiteEdits(r));
    Nested(BrokerEdits(r), Given("REDIRECT_URL", r.redirectUrl), NgrokEdits(r), Given("HOST_SERVER", r.hostServer),
           Given("WEBSOCKET_URL", r.websocketUrl));
  }

  /** An accepted request on a tidy file: every field it gives reads as given, every other key as before. */
  lemma CredentialsAreRead(pieces: seq<string>, r: Request, expand: string -> Option<string>)
    requires Tidy(pieces) && PlainRequest(r) && ExpandsTemplates(expand)
    ensures var t := Joined(pieces);
            var after := EditAll(t, EditsOf(r), expand);
            && after.Some? && Tidy(Pieces(after.value))
            && (forall i :: 0 <= i < |EditsOf(r)| ==>
                  var e := EditsOf(r)[i];
                  e.key in ReadEnv(after.value) && ReadEnv(after.value)[e.key] == e.value)
            && (forall key :: (forall i :: 0 <= i < |EditsOf(r)| ==> EditsOf(r)[i].key != key) ==>
                  && (key in ReadEnv(after.value) <==> key in ReadEnv(t))
                  && (key in ReadEnv(t) ==> ReadEnv(after.value)[key] == ReadEnv(t)[key]))
  {
    var t, edits := Joined(pieces), EditsOf(r);
    TidyPieces(pieces);
    PiecesOfJoined(pieces);
    EditsAreInOrder(r);
    InKeyOrderIsDistinct(edits, 0);
    EditsAreRead(t, edits, expand);
    forall i | 0 <= i < |edits|
      ensures edits[i].key in Applied(ReadEnv(t), edits) && Applied(ReadEnv(t), edits)[edits[i].key] == edits[i].value {
      AppliedAt(ReadEnv(t), edits, i);
    }
    forall key | forall i :: 0 <= i < |edits| ==> edits[i].key != key
      ensures (key in Applied(ReadEnv(t), edits) <==> key in ReadEnv(t))
           && (key in ReadEnv(t) ==> Applied(ReadEnv(t), edits)[key] == ReadEnv(t)[key]) {
      AppliedElsewhere(ReadEnv(t), edits, key);
    }
  }

  /** A setting saved where at most one line set the key is read, and nothing else is read differently. */
  lemma SettingIsRead(pieces: seq<string>, key: string, value: string)
    requires pieces != [] && AllClean(pieces) && IsName(key) && PlainValue(value) && Readers(pieces, key) <= 1
    ensures ReadEnv(SetInText(Joined(pieces), key, value)) == ReadPieces(pieces)[key := value]
  {
    var after := SetPieces(pieces, key, value);
    SetInTextIsSetPieces(pieces, key, value);
    SetIsClean(pieces, key, value);
    forall i | 0 <= i < |after| ensures OneLine(after[i]) { CleanIsOneLine(after[i]); }
    PiecesOfJoined(after);
    SetPiecesReads(pieces, key, value);
  }

  /** The keys the settings page takes: capitals, digits and underscores after a capital, and one line break
    * that the pattern lets through at the end. */
  lemma EnvKeyIff(key: string)
    ensures IsEnvKey(key) <==>
              exists name: string ::
                && (key == name || key == name + "\n") && name != "" && 'A' <= name[0] <= 'Z'
                && forall i :: 0 <= i < |name| ==>
                     'A' <= name[i] <= 'Z' || '0' <= name[i] <= '9' || name[i] == '_'
  {
    if IsCapitalName(key) { assert key == key; }
    else if IsEnvKey(key) { assert key == key[..|key| - 1] + "\n"; }
    if name: string :| (key == name || key == name + "\n") && IsCapitalName(name) {
      if key == name + "\n" { assert key[..|key| - 1] == name; }
    }
  }

  // ---- field by field

  /** What a file reads for this key after a request that gives `value` for it, or nothing. */
  predicate KeyReads(before: map<string, string>, after: map<string, string>, key: string, value: string) {
    if value != "" then key in after && after[key] == value
    else (key in after <==> key in before) && (key in before ==> after[key] == before[key])
  }

  /** Every text field that is given reads under its own key, the tunnel switch reads as TRUE exactly when the
    * given one is TRUE in any case and padding, and every other key, given no field, reads as before. */
  ghost predicate FieldsRead(before: map<string, string>, after: map<string, string>, r: Request) {
    && KeyReads(before, after, "BROKER_API_KEY", r.apiKey)
    && KeyReads(before, after, "BROKER_API_SECRET", r.apiSecret)
    && KeyReads(before, after, "BROKER_API_KEY_MARKET", r.apiKeyMarket)
    && KeyReads(before, after, "BROKER_API_SECRET_MARKET", r.apiSecretMarket)
    && KeyReads(before, after, "REDIRECT_URL", r.redirectUrl)
    && KeyReads(before, after, "HOST_SERVER", r.hostServer)
    && KeyReads(before, after, "WEBSOCKET_URL", r.websocketUrl)
    && KeyReads(before, after, "NGROK_ALLOW",
                if r.ngrok.None? then "" else if Upper(Strip(r.ngrok.value)) == "TRUE" then "TRUE" else "FALSE")
    && (forall key ::
          (key !in {"BROKER_API_KEY", "BROKER_API_SECRET", "BROKER_API_KEY_MARKET", "BROKER_API_SECRET_MARKET",
                    "REDIRECT_URL", "NGROK_ALLOW", "HOST_SERVER", "WEBSOCKET_URL"}) ==>
            KeyReads(before, after, key, ""))
  }

  /** The field that goes with the `n`-th key. */
  function FieldOf(r: Request, n: nat): string {
    match n
    case 0 => r.apiKey
    case 1 => r.apiSecret
    case 2 => r.apiKeyMarket
    case 3 => r.apiSecretMarket
    case 4 => r.redirectUrl
    case 5 => if r.ngrok.None? then "" else NgrokValue(r.ngrok.value)
    case 6 => r.hostServer
    case 7 => r.websocketUrl
    case _ => ""
  }

  lemma InGiven(key: string, value: string, e: Edit)
    ensures e in Given(key, value) <==> value != "" && e == Edit(Credentials, key, value)
  {
  }

  lemma InEdits(r: Request, e: Edit)
    ensures e in EditsOf(r) <==> exists n :: 0 <= n < |KEYS| && e in Given(KEYS[n], FieldOf(r, n))
  {
    var a, b := Given(KEYS[0], FieldOf(r, 0)), Given(KEYS[1], FieldOf(r, 1));
    var c, d := Given(KEYS[2], FieldOf(r, 2)), Given(KEYS[3], FieldOf(r, 3));
    var f, g := Given(KEYS[4], FieldOf(r, 4)), Given(KEYS[5], FieldOf(r, 5));
    var h, i := Given(KEYS[6], FieldOf(r, 6)), Given(KEYS[7], FieldOf(r, 7));
    assert NgrokEdits(r) == g;
    assert EditsOf(r) == a + b + c + d + f + g + h + i;
    InEight(a, b, c, d, f, g, h, i, e);
  }

  lemma InEight(a: seq<Edit>, b: seq<Edit>, c: seq<Edit>, d: seq<Edit>, f: seq<Edit>, g: seq<Edit>, h: seq<Edit>,
                i: seq<Edit>, e: Edit)
    ensures e in a + b + c + d + f + g + h + i
       <==> e in a || e in b || e in c || e in d || e in f || e in g || e in h || e in i
  {
  }

  lemma FieldIsRead(pieces: seq<string>, r: Request, expand: string -> Option<string>, n: nat)
    requires Tidy(pieces) && PlainRequest(r) && ExpandsTemplates(expand) && n < |KEYS|
    ensures var after := EditAll(Joined(pieces), EditsOf(r), expand);
            after.Some? && KeyReads(ReadEnv(Joined(pieces)), ReadEnv(after.value), KEYS[n], FieldOf(r, n))
  {
    CredentialsAreRead(pieces, r, expand);
    var edits := EditsOf(r);
    if FieldOf(r, n) != "" {
      var e := Edit(Credentials, KEYS[n], FieldOf(r, n));
      InGiven(KEYS[n], FieldOf(r, n), e);
      InEdits(r, e);
      var i :| 0 <= i < |edits| && edits[i] == e;
    } else {
      NoEditOf(r, n);
    }
  }

  lemma NoEditOf(r: Request, n: nat)
    requires n < |KEYS| && FieldOf(r, n) == ""
    ensures forall i :: 0 <= i < |EditsOf(r)| ==> EditsOf(r)[i].key != KEYS[n]
  {
    var edits := EditsOf(r);
    forall i | 0 <= i < |edits| ensures edits[i].key != KEYS[n] {
      assert edits[i] in edits;
      InEdits(r, edits[i]);
      var m :| 0 <= m < |KEYS| && edits[i] in Given(KEYS[m], FieldOf(r, m));
      InGiven(KEYS[m], FieldOf(r, m), edits[i]);
      KeysAreNames();
    }
  }

  lemma OtherKeyIsKept(pieces: seq<string>, r: Request, expand: string -> Option<string>, key: string)
    requires Tidy(pieces) && PlainRequest(r) && ExpandsTemplates(expand) && key !in KEYS
    ensures var after := EditAll(Joined(pieces), EditsOf(r), expand);
            after.Some? && KeyReads(ReadEnv(Joined(pieces)), ReadEnv(after.value), key, "")
  {
    CredentialsAreRead(pieces, r, expand);
    var edits := EditsOf(r);
    forall i | 0 <= i < |edits| ensures edits[i].key != key {
      assert edits[i] in edits;
      InEdits(r, edits[i]);
      var m :| 0 <= m < |KEYS| && edits[i] in Given(KEYS[m], FieldOf(r, m));
      InGiven(KEYS[m], FieldOf(r, m), edits[i]);
    }
  }

  /** What the credentials page does to a tidy file, field by field. */
  lemma FieldsAreRead(pieces: seq<string>, r: Request, expand: string -> Option<string>)
    requires Tidy(pieces) && PlainRequest(r) && ExpandsTemplates(expand)
    ensures var after := EditAll(Joined(pieces), EditsOf(r), expand);
            after.Some? && FieldsRead(ReadEnv(Joined(pieces)), ReadEnv(after.value), r)
  {
    forall n | 0 <= n < |KEYS|
      ensures EditAll(Joined(pieces), EditsOf(r), expand).Some?
      ensures KeyReads(ReadEnv(Joined(pieces)), ReadEnv(EditAll(Joined(pieces), EditsOf(r), expand).value), KEYS[n],
                       FieldOf(r, n)) {
      FieldIsRead(pieces, r, expand, n);
    }
    FieldIsRead(pieces, r, expand, 0);
    forall key | key !in KEYS
      ensures KeyReads(ReadEnv(Joined(pieces)), ReadEnv(EditAll(Joined(pieces), EditsOf(r), expand).value), key, "") {
      OtherKeyIsKept(pieces, r, expand, key);
    }
    KeyByKey(ReadEnv(Joined(pieces)), ReadEnv(EditAll(Joined(pieces), EditsOf(r), expand).value), r);
  }

  /** On a tidy file, a request of plain values leaves exactly its own fields readable, besides what was there. */
  ghost predicate ReadsAsAsked(before: string, after: string, r: Request, expand: string -> Option<string>) {
    Tidy(Pieces(before)) && PlainRequest(r) && ExpandsTemplates(expand) ==>
      FieldsRead(ReadEnv(before), ReadEnv(after), r)
  }

  lemma AskedIsRead(before: string, after: string, r: Request, expand: string -> Option<string>)
    requires EditAll(before, EditsOf(r), expand) == Some(after)
    ensures ReadsAsAsked(before, after, r, expand)
  {
    if Tidy(Pieces(before)) && PlainRequest(r) && ExpandsTemplates(expand) { FieldsAreRead(Pieces(before), r, expand); }
  }

  lemma KeyByKey(before: map<string, string>, after: map<string, string>, r: Request)
    requires forall n :: 0 <= n < |KEYS| ==> KeyReads(before, after, KEYS[n], FieldOf(r, n))
    requires forall key :: key !in KEYS ==> KeyReads(before, after, key, "")
    ensures FieldsRead(before, after, r)
  {
    assert KeyReads(before, after, KEYS[0], FieldOf(r, 0)) && KeyReads(before, after, KEYS[1], FieldOf(r, 1));
    assert KeyReads(before, after, KEYS[2], FieldOf(r, 2)) && KeyReads(before, after, KEYS[3], FieldOf(r, 3));
    assert KeyReads(before, after, KEYS[4], FieldOf(r, 4)) && KeyReads(before, after, KEYS[5], FieldOf(r, 5));
    assert KeyReads(before, after, KEYS[6], FieldOf(r, 6)) && KeyReads(before, after, KEYS[7], FieldOf(r, 7));
  }

  // ---------------------------------------------------------------- indented lines

  /** Lines set the key, and all of them are indented: the file's readers and the settings page find
    * them, the substitution does not. */
  ghost predicate OnlyIndented(pieces: seq<string>, key: string) {
    && Readers(pieces, key) > 0
    && forall i :: 0 <= i < |pieces| && ReadsKey(pieces[i], key) ==> Unindented(pieces[i]) != pieces[i]
  }

  lemma {:induction false} CountZeroIff(pieces: seq<string>, key: string)
    ensures Count(pieces, key) == 0 <==> forall i :: 0 <= i < |pieces| ==> !AssignsKey(pieces[i], key)
  {
    if pieces != [] {
      CountZeroIff(pieces[1..], key);
      assert forall i :: 0 <= i < |pieces| - 1 ==> pieces[1..][i] == pieces[i + 1];
      if exists i :: 0 < i < |pieces| && AssignsKey(pieces[i], key) {
        var i :| 0 < i < |pieces| && AssignsKey(pieces[i], key);
        assert pieces[1..][i - 1] == pieces[i];
      }
    }
  }

  lemma AssignmentReads(line: string, key: string)
    ensures AssignsKey(line, key) <==> ReadsKey(line, key) && Unindented(line) == line
  {
    if AssignsKey(line, key) { AssignmentIsUnindented(line); }
  }

  lemma IndentedAreNotCounted(pieces: seq<string>, key: string)
    requires forall i :: 0 <= i < |pieces| && ReadsKey(pieces[i], key) ==> Unindented(pieces[i]) != pieces[i]
    ensures Count(pieces, key) == 0 && NoBlankValue(pieces, key)
  {
    forall i | 0 <= i < |pieces| ensures !AssignsKey(pieces[i], key) { AssignmentReads(pieces[i], key); }
    CountZeroIff(pieces, key);
  }

  /** Where every line for a key is indented, the credentials page appends one more. The value is read,
    * but now several lines set the key. */
  lemma IndentedLinesAreDoubled(pieces: seq<string>, key: string, value: string, expand: string -> Option<string>)
    requires pieces != [] && AllLoose(pieces) && OnlyIndented(pieces, key)
    requires IsName(key) && PlainValue(value) && ExpandsTemplates(expand)
    ensures var after := Appended(pieces, FreshLine(key, value));
            && UpdateEnvValue(Joined(pieces), key, value, expand) == Some(Joined(after))
            && ReadPieces(after) == ReadPieces(pieces)[key := value]
            && Readers(after, key) == Readers(pieces, key) + 1
  {
    IndentedAreNotCounted(pieces, key);
    UpdateIsUpdatePieces(pieces, key, value, expand);
    AppendedReads(pieces, key, value);
    AppendedReaders(pieces, key, value, key);
  }

  /** A run of edits of one key by the settings page. */
  function SetAll(t: string, key: string, values: seq<string>): string
    decreases |values|
  {
    if values == [] then t else SetAll(SetInText(t, key, values[0]), key, values[1..])
  }

  lemma SetIsClean(pieces: seq<string>, key: string, value: string)
    requires pieces != [] && AllClean(pieces) && IsName(key) && PlainValue(value)
    ensures AllClean(SetPieces(pieces, key, value))
  {
    FreshIsClean(key, value);
    SetKeeps(pieces, key, value, IsClean);
  }

  /** While several lines set a key, no run of edits by the settings page changes anything that is read. */
  lemma {:induction false} SeveralLinesHideEdits(pieces: seq<string>, key: string, values: seq<string>)
    requires pieces != [] && AllClean(pieces) && IsName(key) && Readers(pieces, key) > 1
    requires forall i :: 0 <= i < |values| ==> PlainValue(values[i])
    ensures ReadEnv(SetAll(Joined(pieces), key, values)) == ReadPieces(pieces)
    decreases |values|
  {
    if values == [] {
      forall i | 0 <= i < |pieces| ensures OneLine(pieces[i]) { CleanIsOneLine(pieces[i]); }
      PiecesOfJoined(pieces);
    } else {
      var after := SetPieces(pieces, key, values[0]);
      SetInTextIsSetPieces(pieces, key, values[0]);
      SetIsClean(pieces, key, values[0]);
      SetReaders(pieces, key, values[0], key);
      SetPiecesReads(pieces, key, values[0]);
      SeveralLinesHideEdits(after, key, values[1..]);
    }
  }
}
