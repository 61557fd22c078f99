/**
 * The Google Chat `/kudos` command (googlechat/slashcommand.go): parse the
 * argument text into a mention and a description, resolve the recipient,
 * hand the kudos to the service, and announce the new total.
 */
module GoogleChatCommand {
  import opened Wrappers
  import opened GoStrings
  import opened KudosData
  import opened KudosService

  const KudosCommand: string := "/kudos"
  const UsersPrefix: string := "<users/"

  /** The two errors parseCommandText returns, with their messages (googlechat/slashcommand.go:77, 97). */
  datatype ParseError = UsageError | MentionError {
    function Message(): string {
      match this
      case UsageError => "command format: /kudos @user description"
      case MentionError => "user must be mentioned with @ or Google Chat @mention format"
    }
  }

  /** The parsed command (googlechat/slashcommand.go:60-65). */
  datatype ChatKudos = ChatKudos(command: string, userId: string, username: string, description: string)

  /** A user ID the capture group of `^<users/([^>]+)>$` can return from one field. */
  predicate IsUserId(id: string) {
    IsWord(id) && forall i :: 0 <= i < |id| ==> id[i] != '>'
  }

  /** The capture group of `^<users/([^>]+)>$`, when the whole token matches. */
  function MentionId(token: string): (r: Option<string>)
    ensures r.Some? ==> token == UsersPrefix + r.value + ">"
    ensures r.Some? && NoSpace(token) ==> IsUserId(r.value)
  {
    if |token| >= 9 && token[..7] == UsersPrefix && token[|token| - 1] == '>'
       && (forall i :: 7 <= i < |token| - 1 ==> token[i] != '>')
    then
      var id := token[7..|token| - 1];
      assert token == UsersPrefix + id + ">";
      Some(id)
    else None
  }

  /** The regex matches exactly the mentions built from a user ID. */
  lemma MentionIdOfMention(id: string)
    requires id != [] && forall i :: 0 <= i < |id| ==> id[i] != '>'
    ensures MentionId(UsersPrefix + id + ">") == Some(id)
  {
    var token := UsersPrefix + id + ">";
    assert token[..7] == UsersPrefix;
    assert token[7..|token| - 1] == id;
    forall i | 7 <= i < |token| - 1
      ensures token[i] != '>'
    {
      assert token[i] == id[i - 7];
    }
  }

  /** How the recipient is written in the command and in the reply (googlechat/slashcommand.go:189-194). */
  function Mention(k: ChatKudos): string {
    if k.userId != "" then UsersPrefix + k.userId + ">" else "@" + k.username
  }

  /** The commands parseCommandText can return: a description of single-spaced words and one way of naming the user. */
  predicate WellFormed(k: ChatKudos) {
    && k.command == KudosCommand
    && Fields(k.description) != []
    && Join(Fields(k.description), " ") == k.description
    && (if k.userId != "" then IsUserId(k.userId) && k.username == "" else NoSpace(k.username))
  }

  /**
   * googlechat/slashcommand.go:69-101: drop a leading "/kudos", split on
   * white space, take the first field as the user and join the rest with
   * single spaces as the description.
   */
  function ParseCommandText(text: string): (r: Result<ChatKudos, ParseError>)
    ensures var parts := Fields(TrimPrefix(text, KudosCommand));
      && (r == Failure(UsageError) <==> |parts| < 2)
      && (r == Failure(MentionError) <==> |parts| >= 2 && MentionId(parts[0]).None? && !HasPrefix(parts[0], "@"))
      && (r.Success? ==>
            && WellFormed(r.value)
            && Mention(r.value) == parts[0]
            && Fields(r.value.description) == parts[1..])
  {
    FieldsOfTrimSpace(TrimPrefix(text, KudosCommand));
    ParseFields(Fields(TrimSpace(TrimPrefix(text, KudosCommand))))
  }

  /** The rest of parseCommandText once the text is split into fields (googlechat/slashcommand.go:76-100). */
  function ParseFields(parts: seq<string>): (r: Result<ChatKudos, ParseError>)
    requires AllWords(parts)
    ensures r == Failure(UsageError) <==> |parts| < 2
    ensures r == Failure(MentionError) <==> |parts| >= 2 && MentionId(parts[0]).None? && !HasPrefix(parts[0], "@")
    ensures r.Success? ==> WellFormed(r.value) && Mention(r.value) == parts[0] && Fields(r.value.description) == parts[1..]
  {
    if |parts| < 2 then Failure(UsageError)
    else
      var userPart := parts[0];
      var description := Join(parts[1..], " ");
      FieldsOfJoin(parts[1..]);
      match MentionId(userPart)
      case Some(id) => Success(ChatKudos(KudosCommand, id, "", description))
      case None =>
        if HasPrefix(userPart, "@") then
          assert "@" + TrimPrefix(userPart, "@") == userPart;
          Success(ChatKudos(KudosCommand, "", TrimPrefix(userPart, "@"), description))
        else Failure(MentionError)
  }

  /** The argument text a user would type for a command. */
  function CommandText(k: ChatKudos): string {
    Join([Mention(k)] + Fields(k.description), " ")
  }

  /** The mention of a well-formed command is a single field that the parser reads back. */
  lemma MentionParses(k: ChatKudos)
    requires WellFormed(k)
    ensures IsWord(Mention(k))
    ensures k.userId != "" ==> MentionId(Mention(k)) == Some(k.userId)
    ensures k.userId == "" ==> MentionId(Mention(k)).None? && HasPrefix(Mention(k), "@") && TrimPrefix(Mention(k), "@") == k.username
  {
    var m := Mention(k);
    if k.userId != "" {
      forall i | 0 <= i < |m| ensures !IsSpace(m[i]) {
        if 7 <= i < |m| - 1 { assert m[i] == k.userId[i - 7]; }
      }
      MentionIdOfMention(k.userId);
    } else {
      forall i | 0 <= i < |m| ensures !IsSpace(m[i]) {
        if i > 0 { assert m[i] == k.username[i - 1]; }
      }
      assert m[..1] == "@" && m[1..] == k.username;
      assert |m| >= 9 ==> m[..7][0] != UsersPrefix[0];
    }
  }

  /** The command text splits into the mention and the description's words. */
  lemma CommandTextFields(k: ChatKudos)
    requires WellFormed(k)
    ensures var text := CommandText(k);
      Fields(TrimSpace(TrimPrefix(text, KudosCommand))) == [Mention(k)] + Fields(k.description)
  {
    var m := Mention(k);
    var ws := [m] + Fields(k.description);
    MentionParses(k);
    assert AllWords(ws);
    var text := CommandText(k);
    JoinEnds(ws);
    assert !HasPrefix(text, KudosCommand) by {
      assert text[0] == m[0];
    }
    FieldsOfJoin(ws);
  }

  /** Round trip: every well-formed command is parsed back from its own text. */
  lemma ParseCommandTextRoundTrip(k: ChatKudos)
    requires WellFormed(k)
    ensures ParseCommandText(CommandText(k)) == Success(k)
  {
    CommandTextFields(k);
    MentionParses(k);
    var parts := [Mention(k)] + Fields(k.description);
    assert parts[0] == Mention(k) && parts[1..] == Fields(k.description);
  }

  /** The message sender as the handler names it (googlechat/slashcommand.go:162-165). */
  datatype Sender = Sender(name: string, displayName: string)

  /** The parts of a Google Chat event the handler reads. */
  datatype ChatEvent = ChatEvent(spaceName: string, argumentText: string, sender: Sender)

  function SenderName(s: Sender): (r: string)
    ensures r == "" <==> s.displayName == "" && s.name == ""
    ensures s.displayName != "" ==> r == s.displayName
    ensures s.displayName == "" ==> r == s.name
  {
    if s.displayName != "" then s.displayName else s.name
  }

  /** Why handleGoogleChatCommand returns an error, in the order it checks. */
  datatype CommandError =
    | InvalidSpace                  // no space name (line 107-110)
    | NotInstalled                  // no installation for the space (113-117)
    | BadCommand(reason: ParseError) // parseCommandText failed (120-124)
    | UnresolvedUser                // empty username (154-156)
    | UnknownSender                 // no display name and no name (167-170)
    | ServiceFailed(cause: DbError) // HandleKudos failed (182-186)

  /** The command with the recipient resolved: a mentioned user ID is used as the username (line 127-152). */
  function ResolveRecipient(k: ChatKudos): (r: ChatKudos)
    ensures r.userId == k.userId && r.description == k.description && r.command == k.command
    ensures r.username == if k.userId != "" then k.userId else k.username
    ensures Mention(r) == Mention(k)
  {
    if k.userId != "" then k.(username := k.userId) else k
  }

  /** The checks before the service is called, and the payload they build (googlechat/slashcommand.go:105-180). */
  datatype Prepared = Prepared(payload: KudosPayload, kudos: ChatKudos)

  function PrepareKudos(event: ChatEvent, installed: bool): (r: Result<Prepared, CommandError>)
    // each outcome holds exactly when the checks before it pass and its own fails
    ensures r == Failure(InvalidSpace) <==> event.spaceName == ""
    ensures r == Failure(NotInstalled) <==> event.spaceName != "" && !installed
    ensures r.Failure? && r.error.BadCommand? <==> event.spaceName != "" && installed && ParseCommandText(event.argumentText).Failure?
    ensures event.spaceName != "" && installed && ParseCommandText(event.argumentText).Failure? ==>
      r == Failure(BadCommand(ParseCommandText(event.argumentText).error))
    ensures r == Failure(UnresolvedUser) <==>
      && event.spaceName != "" && installed && ParseCommandText(event.argumentText).Success?
      && ParseCommandText(event.argumentText).value.userId == "" && ParseCommandText(event.argumentText).value.username == ""
    ensures r == Failure(UnknownSender) <==>
      && event.spaceName != "" && installed && ParseCommandText(event.argumentText).Success?
      && ResolveRecipient(ParseCommandText(event.argumentText).value).username != "" && SenderName(event.sender) == ""
    // every event that passes all the checks is granted
    ensures r.Success? <==>
      && event.spaceName != "" && installed && ParseCommandText(event.argumentText).Success?
      && ResolveRecipient(ParseCommandText(event.argumentText).value).username != "" && SenderName(event.sender) != ""
    ensures r.Success? ==>
      && ParseCommandText(event.argumentText).Success?
      && r.value.kudos == ResolveRecipient(ParseCommandText(event.argumentText).value)
      && r.value.payload == KudosPayload(event.spaceName, r.value.kudos.username, r.value.kudos.description, event.spaceName, SenderName(event.sender))
      && r.value.payload.toUsername != "" && r.value.payload.fromUsername != ""
  {
    if event.spaceName == "" then Failure(InvalidSpace)
    else if !installed then Failure(NotInstalled)
    else match ParseCommandText(event.argumentText)
      case Failure(e) => Failure(BadCommand(e))
      case Success(parsed) =>
        var kudos := ResolveRecipient(parsed);
        if kudos.username == "" then Failure(UnresolvedUser)
        else
          var orgId := event.spaceName;
          var senderName := SenderName(event.sender);
          if senderName == "" then Failure(UnknownSender)
          else Success(Prepared(KudosPayload(orgId, kudos.username, kudos.description, event.spaceName, senderName), kudos))
  }

  /**
   * googlechat/slashcommand.go:103-205. The installation lookup is the
   * `installed` parameter; the reply is the announcement the message text
   * is formatted from.
   */
  method HandleGoogleChatCommand(event: ChatEvent, installed: bool, db: Database, faults: set<Statement>) returns (r: Result<Announcement, CommandError>)
    requires db.Valid()
    modifies db
    ensures db.Valid()
    ensures PrepareKudos(event, installed).Failure? ==>
      r == Failure(PrepareKudos(event, installed).error) && db.State() == old(db.State())
    ensures PrepareKudos(event, installed).Success? ==>
      var p := PrepareKudos(event, installed).value;
      var g := Transact(old(db.State()), p.payload.fromUsername, p.payload.toUsername, p.payload.description, p.payload.installationId, faults, db.missIsError);
      && db.State() == g.tables
      && (r.Failure? <==> CountKudos in faults)
      && (r.Failure? ==> r.error == ServiceFailed(Unavailable(CountKudos)))
      && (r.Success? ==> r.value == Announcement(Mention(p.kudos), p.kudos.description, KudusCount(db.State(), event.spaceName, p.payload.toUsername)))
  {
    var prepared := PrepareKudos(event, installed);
    if prepared.Failure? {
      return Failure(prepared.error);
    }
    var p := prepared.value;
    var response := HandleKudos(p.payload, db, faults);
    if response.Failure? {
      return Failure(ServiceFailed(response.error));
    }
    r := Success(Announcement(Mention(p.kudos), p.kudos.description, response.value.total));
  }
}
