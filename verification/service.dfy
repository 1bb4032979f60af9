/** The chat service behind the operator chat window: a login/logout state
    machine, a slash-command dispatcher, a fixed assistant reply, and the two
    email exports (chat history and logs). */
module Service {
  import opened Results
  import opened PyStr

  /** The service's exceptions, each carrying the text `str(e)` gives. */
  datatype ServiceError = LoginError(message: string) | EmailError(message: string)

  const EmptyUsername: string := "Login Error: Username cannot be empty"
  const ShortUsername: string := "Login Error: Username must be at least 3 characters"
  const MinUsernameLength: nat := 3

  /** The checks of `login_user`: a missing, empty or all-whitespace name is
      refused as empty; a name shorter than three characters, counted with its
      whitespace, is refused as short; any other name is accepted as given. */
  function ValidateUsername(username: Option<string>): (r: Result<string, ServiceError>)
    ensures r.Ok? <==> username.Some? && !IsBlank(username.value) && |username.value| >= MinUsernameLength
    ensures r.Ok? ==> r.value == username.value
    ensures username.None? || IsBlank(username.value) ==> r == Err(LoginError(EmptyUsername))
    ensures username.Some? && !IsBlank(username.value) && |username.value| < MinUsernameLength ==>
              r == Err(LoginError(ShortUsername))
  {
    match username
    case None => Err(LoginError(EmptyUsername))
    case Some(u) =>
      StripEmptyIffBlank(u);
      if |u| == 0 || |Strip(u)| == 0 then Err(LoginError(EmptyUsername))
      else if |u| < MinUsernameLength then Err(LoginError(ShortUsername))
      else Ok(u)
  }

  /** The length check counts the raw name: a name padded with whitespace to
      three characters passes even though it strips to two, and the stored name
      keeps its padding. */
  lemma PaddedNameAccepted()
    ensures ValidateUsername(Some(" ab")) == Ok(" ab")
    ensures ValidateUsername(Some("   ")) == Err(LoginError(EmptyUsername))
    ensures ValidateUsername(Some("ab")) == Err(LoginError(ShortUsername))
  {
    assert !IsSpace(" ab"[1]) && !IsSpace("ab"[0]);
  }

  const CommandList: seq<string> := ["/fix", "/help", "/search", "/text", "/image", "/video"]

  const FixReply: string := "🔧 Fix process completed successfully!"
  const HelpTitle: string := "ℹ️ Available commands:"
  const SearchReply: string := "🔍 Search results found!"
  const TextReply: string := "📝 Text processing complete!"
  const ImageReply: string := "🖼️ Image processing finished!"
  const VideoReply: string := "🎥 Video processing done!"
  const UnknownCommand: string := "Unknown command"
  const AssistantReply: string := "This is a sample response from the assistant."

  /** The `/help` reply: the title line, then the command list joined by newlines. */
  function HelpReply(): string
  {
    HelpTitle + "\n" + Join(CommandList, '\n')
  }

  /** The reply to each command, in the order of `CommandList`. */
  function Replies(): (r: seq<string>)
    ensures |r| == |CommandList|
  {
    [FixReply, HelpReply(), SearchReply, TextReply, ImageReply, VideoReply]
  }

  /** Two prefixes of one string: the shorter is a prefix of the longer. */
  lemma PrefixesNest(p: string, q: string, s: string)
    requires p <= s && q <= s && |p| <= |q|
    ensures p <= q
  {
    assert forall k :: 0 <= k < |p| ==> p[k] == s[k] == q[k];
  }

  /** No command is a prefix of another, so at most one command can prefix any
      input and the order of the checks never decides the reply. */
  lemma AtMostOneCommandMatches(command: string)
    ensures forall i, j ::
              0 <= i < |CommandList| && 0 <= j < |CommandList| && CommandList[i] <= command && CommandList[j] <= command
              ==> i == j
  {
    forall i, j | 0 <= i < |CommandList| && 0 <= j < |CommandList| &&
                  CommandList[i] <= command && CommandList[j] <= command
      ensures i == j
    {
      var p, q := CommandList[i], CommandList[j];
      if |p| <= |q| { PrefixesNest(p, q, command); } else { PrefixesNest(q, p, command); }
      assert p[1] == q[1] && p[2] == q[2];
    }
  }

  /** `process_command`: the reply of the first command that prefixes the
      input, tried in the order `/fix`, `/help`, `/search`, `/text`, `/image`,
      `/video`; "Unknown command" when none does. */
  function ProcessCommand(command: string): (r: string)
    ensures r == UnknownCommand <==> forall i :: 0 <= i < |CommandList| ==> !(CommandList[i] <= command)
    ensures forall i :: 0 <= i < |CommandList| && CommandList[i] <= command ==> r == Replies()[i]
  {
    assert CommandList[0] == "/fix" && CommandList[1] == "/help" && CommandList[2] == "/search";
    assert CommandList[3] == "/text" && CommandList[4] == "/image" && CommandList[5] == "/video";
    AtMostOneCommandMatches(command);
    if "/fix" <= command then FixReply
    else if "/help" <= command then HelpReply()
    else if "/search" <= command then SearchReply
    else if "/text" <= command then TextReply
    else if "/image" <= command then ImageReply
    else if "/video" <= command then VideoReply
    else UnknownCommand
  }

  /** A dispatcher driven by a table: the reply paired with the first prefix
      that matches, scanning the table in order. */
  function FirstMatch(command: string, prefixes: seq<string>, replies: seq<string>): string
    requires |prefixes| == |replies|
  {
    if |prefixes| == 0 then UnknownCommand
    else if prefixes[0] <= command then replies[0]
    else FirstMatch(command, prefixes[1..], replies[1..])
  }

  /** The table scan returns the reply of the first matching prefix, and the
      unknown-command reply when no prefix matches. */
  lemma {:induction false} FirstMatchIsFirst(command: string, prefixes: seq<string>, replies: seq<string>, i: nat)
    requires |prefixes| == |replies|
    ensures i < |prefixes| && prefixes[i] <= command && (forall j :: 0 <= j < i ==> !(prefixes[j] <= command)) ==>
              FirstMatch(command, prefixes, replies) == replies[i]
    ensures (forall j :: 0 <= j < |prefixes| ==> !(prefixes[j] <= command)) ==>
              FirstMatch(command, prefixes, replies) == UnknownCommand
  {
    if |prefixes| > 0 && !(prefixes[0] <= command) {
      FirstMatchIsFirst(command, prefixes[1..], replies[1..], if i == 0 then 0 else i - 1);
      if i > 0 && i < |prefixes| && prefixes[i] <= command && (forall j :: 0 <= j < i ==> !(prefixes[j] <= command)) {
        assert forall j :: 0 <= j < i - 1 ==> prefixes[1..][j] == prefixes[j + 1];
      }
    }
  }

  /** The if/elif chain of `process_command` is the first-match scan of the
      command table. */
  lemma ProcessCommandIsFirstMatch(command: string)
    ensures ProcessCommand(command) == FirstMatch(command, CommandList, Replies())
  {
    if i :| 0 <= i < |CommandList| && CommandList[i] <= command {
      FirstMatchIsFirst(command, CommandList, Replies(), i);
      forall j | 0 <= j < i ensures !(CommandList[j] <= command) {
        AtMostOneCommandMatches(command);
      }
    } else {
      FirstMatchIsFirst(command, CommandList, Replies(), 0);
    }
  }

  /** The help title is a single line. */
  lemma TitleHasNoNewline()
    ensures '\n' !in HelpTitle
  {
    assert forall i :: 0 <= i < |HelpTitle| ==> HelpTitle[i] != '\n';
  }

  /** Every command is a single line. */
  lemma CommandsHaveNoNewline()
    ensures forall j :: 0 <= j < |CommandList| ==> '\n' !in CommandList[j]
  {
    forall j | 0 <= j < |CommandList| ensures '\n' !in CommandList[j] {
      assert forall i :: 0 <= i < |CommandList[j]| ==> CommandList[j][i] != '\n';
    }
  }

  /** The `/help` reply lists the title and then every command, one per line, in
      list order. */
  /** The `/help` reply is the title and the commands joined by newlines. */
  lemma HelpReplyIsJoin()
    ensures HelpReply() == Join([HelpTitle] + CommandList, '\n')
  {
    var lines := [HelpTitle] + CommandList;
    assert lines[1..] == CommandList;
  }

  lemma HelpListsEveryCommand()
    ensures ProcessCommand("/help") == HelpReply()
    ensures Split(HelpReply(), '\n') == [HelpTitle] + CommandList
  {
    assert "/fix"[1] != "/help"[1] && "/help" <= "/help";
    HelpReplyIsJoin();
    TitleHasNoNewline();
    CommandsHaveNoNewline();
    SplitJoin([HelpTitle] + CommandList, '\n');
  }

  /** `process_message`: the reply does not depend on the message. */
  function ProcessMessage(message: string): (r: string)
    ensures r == AssistantReply
  {
    AssistantReply
  }

  /** One entry of the chat history. */
  datatype HistoryItem = HistoryItem(timestamp: string, message: string)

  /** The email handed to the mail client: recipient, subject and body. */
  datatype Mail = Mail(to: string, subject: string, body: string)

  const SupportEmail: string := "ganesh.gowtham@gmail.com"
  const NoHistory: string := "Email Error: Failed to send history email: No history to send"
  const NoLogContent: string := "Email Error: Failed to send logs email: No log content to send"

  /** The line `"timestamp: message"` of one history entry. */
  function HistoryLine(item: HistoryItem): string
  {
    item.timestamp + ": " + item.message
  }

  /** One line per history entry, in history order. */
  function HistoryLines(history: seq<HistoryItem>): (r: seq<string>)
    ensures |r| == |history|
    ensures forall i :: 0 <= i < |history| ==> r[i] == HistoryLine(history[i])
  {
    seq(|history|, i requires 0 <= i < |history| => HistoryLine(history[i]))
  }

  /** The history text: the entries' lines joined by newlines. */
  function HistoryText(history: seq<HistoryItem>): string
  {
    Join(HistoryLines(history), '\n')
  }

  /** The body of the history export, given the export's formatted date. */
  function HistoryBody(history: seq<HistoryItem>, date: string): (r: string)
    ensures |HistoryText(history)| <= |r| && r[|r| - |HistoryText(history)|..] == HistoryText(history)
  {
    "Chat History Export\n\nDate: " + date + "\n\n" + HistoryText(history)
  }

  /** `send_history_email`: refuses an empty history with `EmailError`;
      otherwise the mail to the support address carries the history text. */
  function SendHistoryEmail(history: seq<HistoryItem>, date: string): (r: Result<Mail, ServiceError>)
    ensures r.Err? <==> |history| == 0
    ensures r.Err? ==> r.error == EmailError(NoHistory)
    ensures r.Ok? ==> r.value.to == SupportEmail && r.value.subject == "Chat History"
    ensures r.Ok? ==> r.value.body == HistoryBody(history, date)
  {
    if |history| == 0 then Err(EmailError(NoHistory))
    else Ok(Mail(SupportEmail, "Chat History", HistoryBody(history, date)))
  }

  /** When no timestamp or message holds a newline, the history text splits
      back into exactly one `"timestamp: message"` line per entry, in order. */
  lemma HistoryTextLines(history: seq<HistoryItem>)
    requires |history| > 0
    requires forall i :: 0 <= i < |history| ==> '\n' !in history[i].timestamp && '\n' !in history[i].message
    ensures Split(HistoryText(history), '\n') == HistoryLines(history)
    ensures |Split(HistoryText(history), '\n')| == |history|
  {
    var lines := HistoryLines(history);
    forall j | 0 <= j < |lines| ensures '\n' !in lines[j] {
      assert lines[j] == history[j].timestamp + ": " + history[j].message;
    }
    SplitJoin(lines, '\n');
  }

  /** `send_logs_email`: refuses empty log content with `EmailError`; otherwise
      the mail to the support address carries the content unchanged. */
  function SendLogsEmail(logContent: string): (r: Result<Mail, ServiceError>)
    ensures r.Err? <==> |logContent| == 0
    ensures r.Err? ==> r.error == EmailError(NoLogContent)
    ensures r.Ok? ==> r.value == Mail(SupportEmail, "Issue", logContent)
  {
    if |logContent| == 0 then Err(EmailError(NoLogContent))
    else Ok(Mail(SupportEmail, "Issue", logContent))
  }

  /** The service object; its only mutable state is the logged-in user. */
  class ChatService {
    var loggedInUser: Option<string>

    /** `__init__`: nobody is logged in. */
    constructor ()
      ensures loggedInUser == None
    {
      loggedInUser := None;
    }

    /** `login_user`: on success records and returns the name as given; on a
        `LoginError` the logged-in user is unchanged. */
    method LoginUser(username: Option<string>) returns (r: Result<string, ServiceError>)
      modifies this
      ensures r == ValidateUsername(username)
      ensures r.Ok? ==> loggedInUser == Some(r.value) && r.value == username.value
      ensures r.Err? ==> loggedInUser == old(loggedInUser)
    {
      r := ValidateUsername(username);
      if r.Ok? {
        loggedInUser := Some(r.value);
      }
    }

    /** `logout_user`: afterwards nobody is logged in, whatever the state before,
        so logging out twice is the same as logging out once. */
    method LogoutUser()
      modifies this
      ensures loggedInUser == None
    {
      loggedInUser := None;
    }
  }
}
