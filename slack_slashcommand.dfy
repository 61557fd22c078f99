/**
 * The Slack `/kudos` command (slack/slashcommand.go): parse the command text,
 * resolve a mentioned user through the Slack API, hand the kudos to the
 * service, and post the announcement back to the channel.
 */
module SlackCommand {
  import opened Wrappers
  import opened GoStrings
  import opened KudosData
  import opened KudosService

  const KudosCommand: string := "/kudos"

  /** The three errors parseCommandText returns, with their messages (slack/slashcommand.go:21, 38, 62). */
  datatype ParseError = UsageError | InvalidCommand | MentionError {
    function Message(): string {
      match this
      case UsageError => "command format: /kudos @user description"
      case InvalidCommand => "Invalid command format"
      case MentionError => "user must be mentioned with @ or Slack @mention format"
    }
  }

  /** The parsed command (slack/slashcommand.go:24-29). */
  datatype SlackKudos = SlackKudos(command: string, userId: string, username: string, description: string)

  /** A character of the class [A-Z0-9]. */
  predicate IsIdChar(c: char) {
    ('A' <= c <= 'Z') || ('0' <= c <= '9')
  }

  /** A user ID the capture group of `^<@([A-Z0-9]+)>$` can return. */
  predicate IsUserId(id: string) {
    id != [] && forall i :: 0 <= i < |id| ==> IsIdChar(id[i])
  }

  /** The capture group of `^<@([A-Z0-9]+)>$`, when the whole token matches. */
  function MentionId(token: string): (r: Option<string>)
    ensures r.Some? ==> token == "<@" + r.value + ">" && IsUserId(r.value)
  {
    if |token| >= 4 && token[..2] == "<@" && token[|token| - 1] == '>'
       && (forall i :: 2 <= i < |token| - 1 ==> IsIdChar(token[i]))
    then
      var id := token[2..|token| - 1];
      assert token == "<@" + id + ">";
      assert forall i :: 0 <= i < |id| ==> id[i] == token[i + 2];
      Some(id)
    else None
  }

  /** The regex matches exactly the mentions built from a user ID. */
  lemma MentionIdOfMention(id: string)
    requires IsUserId(id)
    ensures MentionId("<@" + id + ">") == Some(id)
  {
    var token := "<@" + id + ">";
    assert token[..2] == "<@";
    assert token[2..|token| - 1] == id;
    forall i | 2 <= i < |token| - 1
      ensures IsIdChar(token[i])
    {
      assert token[i] == id[i - 2];
    }
  }

  /** How the recipient is written in the command and in the reply (slack/slashcommand.go:111-116). */
  function Mention(k: SlackKudos): string {
    if k.userId != "" then "<@" + k.userId + ">" else "@" + k.username
  }

  /** The commands parseCommandText can return. */
  predicate WellFormed(k: SlackKudos) {
    && k.command == KudosCommand
    && Fields(k.description) != []
    && Join(Fields(k.description), " ") == k.description
    && (if k.userId != "" then IsUserId(k.userId) && k.username == "" else NoSpace(k.username))
  }

  /**
   * slack/slashcommand.go:33-66: split on white space; the first field must
   * be "/kudos", the second names the user, the rest joined with single
   * spaces is the description.
   */
  function ParseCommandText(text: string): (r: Result<SlackKudos, ParseError>)
    ensures var parts := Fields(text);
      && (r == Failure(UsageError) <==> |parts| < 3)
      && (r == Failure(InvalidCommand) <==> |parts| >= 3 && parts[0] != KudosCommand)
      && (r == Failure(MentionError) <==> |parts| >= 3 && parts[0] == KudosCommand && MentionId(parts[1]).None? && !HasPrefix(parts[1], "@"))
      && (r.Success? ==>
            && WellFormed(r.value)
            && parts[0] == KudosCommand
            && Mention(r.value) == parts[1]
            && Fields(r.value.description) == parts[2..])
  {
    var parts := Fields(text);
    if |parts| < 3 then Failure(UsageError)
    else if parts[0] != KudosCommand then Failure(InvalidCommand)
    else
      var userPart := parts[1];
      var description := Join(parts[2..], " ");
      FieldsOfJoin(parts[2..]);
      match MentionId(userPart)
      case Some(id) => Success(SlackKudos(KudosCommand, id, "", description))
      case None =>
        if HasPrefix(userPart, "@") then
          assert "@" + TrimPrefix(userPart, "@") == userPart;
          Success(SlackKudos(KudosCommand, "", TrimPrefix(userPart, "@"), description))
        else Failure(MentionError)
  }

  /** The text Slack delivers for a command, as the parser expects it. */
  function CommandText(k: SlackKudos): string {
    Join([KudosCommand, Mention(k)] + Fields(k.description), " ")
  }

  /** The mention of a well-formed command is a single field that the parser reads back. */
  lemma MentionParses(k: SlackKudos)
    requires WellFormed(k)
    ensures IsWord(Mention(k))
    ensures k.userId != "" ==> MentionId(Mention(k)) == Some(k.userId)
    ensures k.userId == "" ==> MentionId(Mention(k)).None? && HasPrefix(Mention(k), "@") && TrimPrefix(Mention(k), "@") == k.username
  {
    var m := Mention(k);
    if k.userId != "" {
      forall i | 0 <= i < |m| ensures !IsSpace(m[i]) {
        if 2 <= i < |m| - 1 { assert m[i] == k.userId[i - 2]; }
      }
      MentionIdOfMention(k.userId);
    } else {
      forall i | 0 <= i < |m| ensures !IsSpace(m[i]) {
        if i > 0 { assert m[i] == k.username[i - 1]; }
      }
      assert m[..1] == "@" && m[1..] == k.username;
      assert |m| >= 4 ==> m[..2][0] != '<';
    }
  }

  /** Round trip: every well-formed command is parsed back from its own text. */
  lemma ParseCommandTextRoundTrip(k: SlackKudos)
    requires WellFormed(k)
    ensures ParseCommandText(CommandText(k)) == Success(k)
  {
    MentionParses(k);
    var parts := [KudosCommand, Mention(k)] + Fields(k.description);
    assert IsWord(KudosCommand);
    assert AllWords(parts);
    FieldsOfJoin(parts);
    assert parts[0] == KudosCommand && parts[1] == Mention(k) && parts[2..] == Fields(k.description);
  }

  /** The fields of slack.SlashCommand the handler reads. */
  datatype SlashCommand = SlashCommand(teamId: string, enterpriseId: string, apiAppId: string, userName: string, text: string)

  /** The organization a command belongs to: the enterprise, else the team (slack/slashcommand.go:92-95). */
  function OrgId(c: SlashCommand): (r: string)
    ensures c.enterpriseId != "" ==> r == c.enterpriseId
    ensures c.enterpriseId == "" ==> r == c.teamId
  {
    if c.enterpriseId != "" then c.enterpriseId else c.teamId
  }

  /** Why handleSlashCommand returns an error, in the order it checks. */
  datatype CommandError =
    | NotInstalled                    // no installation for the team (line 70-73)
    | BadCommand(reason: ParseError)  // parseCommandText failed (78-81)
    | UserLookupFailed(reply: string) // GetUserInfo failed (84-88)
    | ServiceFailed(cause: DbError)   // HandleKudos failed (105-108)
    | PostFailed(reply: string)       // PostMessage failed (119-130)

  datatype Prepared = Prepared(payload: KudosPayload, kudos: SlackKudos)

  /**
   * The checks before the service is called, and the payload they build
   * (slack/slashcommand.go:70-103). `userInfo` is the Slack API's answer to
   * GetUserInfo: the user's name, or an error message.
   */
  function PrepareKudos(c: SlashCommand, installed: bool, userInfo: string -> Result<string, string>): (r: Result<Prepared, CommandError>)
    // each outcome holds exactly when the checks before it pass and its own fails
    ensures r == Failure(NotInstalled) <==> !installed
    ensures r.Failure? && r.error.BadCommand? <==> installed && ParseCommandText(c.text).Failure?
    ensures installed && ParseCommandText(c.text).Failure? ==> r == Failure(BadCommand(ParseCommandText(c.text).error))
    ensures r.Failure? && r.error.UserLookupFailed? <==>
      && installed && ParseCommandText(c.text).Success?
      && ParseCommandText(c.text).value.userId != "" && userInfo(ParseCommandText(c.text).value.userId).Failure?
    ensures r.Failure? && r.error.UserLookupFailed? ==>
      ParseCommandText(c.text).Success? && userInfo(ParseCommandText(c.text).value.userId) == Failure(r.error.reply)
    // every command that passes all the checks is granted
    ensures r.Success? <==>
      && installed && ParseCommandText(c.text).Success?
      && (ParseCommandText(c.text).value.userId == "" || userInfo(ParseCommandText(c.text).value.userId).Success?)
    ensures r.Success? ==>
      var parsed := ParseCommandText(c.text).value;
      && installed
      && ParseCommandText(c.text).Success?
      && r.value.kudos.userId == parsed.userId && r.value.kudos.description == parsed.description
      && (if parsed.userId != "" then userInfo(parsed.userId) == Success(r.value.kudos.username) else r.value.kudos.username == parsed.username)
      && r.value.payload == KudosPayload(OrgId(c), r.value.kudos.username, parsed.description, c.apiAppId, c.userName)
  {
    if !installed then Failure(NotInstalled)
    else match ParseCommandText(c.text)
      case Failure(e) => Failure(BadCommand(e))
      case Success(parsed) =>
        var kudos :=
          if parsed.userId == "" then Success(parsed)
          else match userInfo(parsed.userId)
            case Failure(e) => Failure(UserLookupFailed(e))
            case Success(name) => Success(parsed.(username := name));
        match kudos
        case Failure(e) => Failure(e)
        case Success(k) => Success(Prepared(KudosPayload(OrgId(c), k.username, k.description, c.apiAppId, c.userName), k))
  }

  /**
   * slack/slashcommand.go:68-133. The installation lookup is `installed`, the
   * user lookup `userInfo`, and the channel post `post`: given the
   * announcement it returns None or the API's error. The kudos is recorded
   * before the post, so a failed post still leaves it saved.
   */
  method HandleSlashCommand(c: SlashCommand, installed: bool, userInfo: string -> Result<string, string>,
                            post: Announcement -> Option<string>, db: Database, faults: set<Statement>)
    returns (r: Result<Announcement, CommandError>)
    requires db.Valid()
    modifies db
    ensures db.Valid()
    ensures PrepareKudos(c, installed, userInfo).Failure? ==>
      r == Failure(PrepareKudos(c, installed, userInfo).error) && db.State() == old(db.State())
    ensures PrepareKudos(c, installed, userInfo).Success? ==>
      var p := PrepareKudos(c, installed, userInfo).value;
      var g := Transact(old(db.State()), p.payload.fromUsername, p.payload.toUsername, p.payload.description, p.payload.installationId, faults, db.missIsError);
      var a := Announcement(Mention(p.kudos), p.kudos.description, KudusCount(db.State(), c.apiAppId, p.payload.toUsername));
      && db.State() == g.tables
      && (CountKudos in faults ==> r == Failure(ServiceFailed(Unavailable(CountKudos))))
      && (CountKudos !in faults ==> r == (if post(a).Some? then Failure(PostFailed(post(a).value)) else Success(a)))
  {
    var prepared := PrepareKudos(c, installed, userInfo);
    if prepared.Failure? {
      return Failure(prepared.error);
    }
    var p := prepared.value;
    var response := HandleKudos(p.payload, db, faults);
    if response.Failure? {
      return Failure(ServiceFailed(response.error));
    }
    var announcement := Announcement(Mention(p.kudos), p.kudos.description, response.value.total);
    var posted := post(announcement);
    if posted.Some? {
      return Failure(PostFailed(posted.value));
    }
    r := Success(announcement);
  }
}
