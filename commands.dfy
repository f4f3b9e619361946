/**
 * The four PowerShell command builders of runner.py and run_task's dispatch
 * on the action column.
 *
 * A task's action selects one builder call (Dispatch); the builder turns its
 * arguments into the command line (Render). Arguments are placed between
 * double quotes verbatim, with no escaping. Parse reads a command line back
 * into the builder call; it is the inverse of Render on arguments that hold
 * no double quote.
 */
module Commands {
  import opened Wrappers
  import opened Schedule
  import opened Quoting

  /** A call of one of the four builders, with its arguments. */
  datatype Call =
    | DisableUser(user: string)
    | EnableUser(user: string)
    | AddToGroup(user: string, group: string)
    | RemoveFromGroup(user: string, group: string)

  const DisablePrefix: string := "Disable-ADAccount -Identity \""
  const EnablePrefix: string := "Enable-ADAccount -Identity \""
  const AddPrefix: string := "Add-ADGroupMember -Identity \""
  const RemovePrefix: string := "Remove-ADGroupMember -Identity \""
  const MembersInfix: string := "\" -Members \""
  const Closing: string := "\""
  const ConfirmClosing: string := "\" -Confirm:$false"

  /** The action names run_task recognises. */
  const KnownActions: set<string> := {"disable", "enable", "addtogroup", "removefromgroup"}

  /** The command line a builder call issues. */
  function Render(c: Call): string
  {
    match c
    case DisableUser(u) => DisablePrefix + u + Closing
    case EnableUser(u) => EnablePrefix + u + Closing
    case AddToGroup(u, g) => AddPrefix + g + MembersInfix + u + Closing
    case RemoveFromGroup(u, g) => RemovePrefix + g + MembersInfix + u + ConfirmClosing
  }

  /** run_task's if/elif chain: the builder call for a task, or None (a warning) for an unknown action. */
  function Dispatch(t: Task): (r: Option<Call>)
    ensures r.Some? <==> t.action in KnownActions
    ensures r.Some? ==> r.value.user == t.user && ActionName(r.value) == t.action
    ensures r.Some? && (r.value.AddToGroup? || r.value.RemoveFromGroup?) ==> r.value.group == t.value
  {
    if t.action == "disable" then Some(DisableUser(t.user))
    else if t.action == "enable" then Some(EnableUser(t.user))
    else if t.action == "addtogroup" then Some(AddToGroup(t.user, t.value))
    else if t.action == "removefromgroup" then Some(RemoveFromGroup(t.user, t.value))
    else None
  }

  /** The command a task issues, if any. */
  function CommandOf(t: Task): Option<string>
  {
    match Dispatch(t)
    case Some(c) => Some(Render(c))
    case None => None
  }

  /** The action name that selects a builder call. */
  function ActionName(c: Call): string
  {
    match c
    case DisableUser(_) => "disable"
    case EnableUser(_) => "enable"
    case AddToGroup(_, _) => "addtogroup"
    case RemoveFromGroup(_, _) => "removefromgroup"
  }

  /** A task that asks for exactly this builder call. */
  function TaskFor(c: Call, time: int): Task
  {
    match c
    case DisableUser(u) => Task(u, "disable", "", time)
    case EnableUser(u) => Task(u, "enable", "", time)
    case AddToGroup(u, g) => Task(u, "addtogroup", g, time)
    case RemoveFromGroup(u, g) => Task(u, "removefromgroup", g, time)
  }

  /** Every builder call is reachable from some task, at any time. */
  lemma DispatchReachesEveryCall(c: Call, time: int)
    ensures Dispatch(TaskFor(c, time)) == Some(c)
  {
  }

  /** The value column does not matter for disable and enable. */
  lemma AccountActionsIgnoreValue(t: Task, v: string)
    requires t.action == "disable" || t.action == "enable"
    ensures CommandOf(t.(value := v)) == CommandOf(t)
  {
  }

  /** The group actions are issued whatever the value, the empty group name included. */
  lemma GroupActionsNeedNoValue(t: Task)
    requires t.action == "addtogroup" || t.action == "removefromgroup"
    ensures CommandOf(t).Some?
    ensures CommandOf(t.(value := "")).Some?
  {
  }

  // ---------------------------------------------------------------------
  // Reading a command line back

  /** Every argument of the call is free of double quotes. */
  predicate PlainArguments(c: Call)
  {
    Unquoted(c.user) && ((c.AddToGroup? || c.RemoveFromGroup?) ==> Unquoted(c.group))
  }

  /** The builder call that issued a command line, if any did. */
  function Parse(cmd: string): Option<Call>
  {
    if DisablePrefix <= cmd then
      match Field(cmd[|DisablePrefix|..], Closing)
      case Some(u) => Some(DisableUser(u))
      case None => None
    else if EnablePrefix <= cmd then
      match Field(cmd[|EnablePrefix|..], Closing)
      case Some(u) => Some(EnableUser(u))
      case None => None
    else if AddPrefix <= cmd then
      match GroupArguments(cmd[|AddPrefix|..], MembersInfix, Closing)
      case Some((u, g)) => Some(AddToGroup(u, g))
      case None => None
    else if RemovePrefix <= cmd then
      match GroupArguments(cmd[|RemovePrefix|..], MembersInfix, ConfirmClosing)
      case Some((u, g)) => Some(RemoveFromGroup(u, g))
      case None => None
    else None
  }

  lemma UserCommandInverse(cmd: string, prefix: string, u: string)
    requires prefix <= cmd && Field(cmd[|prefix|..], Closing) == Some(u)
    ensures cmd == prefix + u + Closing && Unquoted(u)
  {
    FieldInverse(cmd[|prefix|..], Closing, u);
    PrefixThenRest(prefix, cmd);
  }

  lemma GroupCommandInverse(cmd: string, prefix: string, sep: string, tail: string, u: string, g: string)
    requires prefix <= cmd && GroupArguments(cmd[|prefix|..], sep, tail) == Some((u, g))
    ensures cmd == prefix + g + sep + u + tail && Unquoted(u) && Unquoted(g)
  {
    var rest := cmd[|prefix|..];
    GroupArgumentsInverse(rest, sep, tail, u, g);
    PrefixThenRest(prefix, cmd);
    AppendAssoc(prefix, g + sep + u, tail, cmd);
  }

  lemma ParseDisable(u: string)
    requires Unquoted(u)
    ensures Parse(Render(DisableUser(u))) == Some(DisableUser(u))
  {
    RestAfterPrefix(DisablePrefix, u + Closing);
    assert Render(DisableUser(u)) == DisablePrefix + (u + Closing);
    FieldOf(u, Closing);
  }

  lemma ParseEnable(u: string)
    requires Unquoted(u)
    ensures Parse(Render(EnableUser(u))) == Some(EnableUser(u))
  {
    var cmd := Render(EnableUser(u));
    RestAfterPrefix(EnablePrefix, u + Closing);
    assert cmd == EnablePrefix + (u + Closing);
    assert cmd[0] == 'E';
    assert !(DisablePrefix <= cmd);
    FieldOf(u, Closing);
  }

  lemma ParseAdd(u: string, g: string)
    requires Unquoted(u) && Unquoted(g)
    ensures Parse(Render(AddToGroup(u, g))) == Some(AddToGroup(u, g))
  {
    var cmd := Render(AddToGroup(u, g));
    RestAfterPrefix(AddPrefix, g + MembersInfix + u + Closing);
    assert cmd == AddPrefix + (g + MembersInfix + u + Closing);
    assert cmd[0] == 'A';
    assert !(DisablePrefix <= cmd) && !(EnablePrefix <= cmd);
    GroupArgumentsOf(u, g, MembersInfix, Closing);
  }

  lemma ParseRemove(u: string, g: string)
    requires Unquoted(u) && Unquoted(g)
    ensures Parse(Render(RemoveFromGroup(u, g))) == Some(RemoveFromGroup(u, g))
  {
    var cmd := Render(RemoveFromGroup(u, g));
    RestAfterPrefix(RemovePrefix, g + MembersInfix + u + ConfirmClosing);
    assert cmd == RemovePrefix + (g + MembersInfix + u + ConfirmClosing);
    assert cmd[0] == 'R';
    assert !(DisablePrefix <= cmd) && !(EnablePrefix <= cmd) && !(AddPrefix <= cmd);
    GroupArgumentsOf(u, g, MembersInfix, ConfirmClosing);
  }

  /** Parsing a rendered call with quote-free arguments gives the call back. */
  lemma ParseRender(c: Call)
    requires PlainArguments(c)
    ensures Parse(Render(c)) == Some(c)
  {
    match c
    case DisableUser(u) => ParseDisable(u);
    case EnableUser(u) => ParseEnable(u);
    case AddToGroup(u, g) => ParseAdd(u, g);
    case RemoveFromGroup(u, g) => ParseRemove(u, g);
  }

  /** Whatever Parse accepts is exactly the rendering of a call with quote-free arguments. */
  lemma RenderParse(cmd: string, c: Call)
    requires Parse(cmd) == Some(c)
    ensures Render(c) == cmd && PlainArguments(c)
  {
    if DisablePrefix <= cmd {
      UserCommandInverse(cmd, DisablePrefix, c.user);
    } else if EnablePrefix <= cmd {
      UserCommandInverse(cmd, EnablePrefix, c.user);
    } else if AddPrefix <= cmd {
      GroupCommandInverse(cmd, AddPrefix, MembersInfix, Closing, c.user, c.group);
    } else {
      GroupCommandInverse(cmd, RemovePrefix, MembersInfix, ConfirmClosing, c.user, c.group);
    }
  }

  /** Two calls with quote-free arguments issue the same command only if they are the same call. */
  lemma RenderInjective(c1: Call, c2: Call)
    requires PlainArguments(c1) && PlainArguments(c2)
    requires Render(c1) == Render(c2)
    ensures c1 == c2
  {
    ParseRender(c1);
    ParseRender(c2);
  }

  /**
   * Without escaping, a double quote in an argument changes the command's
   * structure: a group name that carries `" -Members "` and a user name that
   * carries it issue the same text for two different calls.
   */
  lemma UnescapedQuotesCollide(g: string, x: string, u: string)
    ensures AddToGroup(u, g + MembersInfix + x) != AddToGroup(x + MembersInfix + u, g)
    ensures Render(AddToGroup(u, g + MembersInfix + x)) == Render(AddToGroup(x + MembersInfix + u, g))
  {
    assert |g + MembersInfix + x| != |g|;
    calc {
      Render(AddToGroup(u, g + MembersInfix + x));
      AddPrefix + (g + MembersInfix + x) + MembersInfix + u + Closing;
      { AppendAssoc(AddPrefix + g, MembersInfix + x, MembersInfix + u + Closing,
          AddPrefix + g + (MembersInfix + x + (MembersInfix + u + Closing))); }
      AddPrefix + g + MembersInfix + (x + MembersInfix + u) + Closing;
      Render(AddToGroup(x + MembersInfix + u, g));
    }
  }

  /** Scenario: disabling jdoe issues `Disable-ADAccount -Identity "jdoe"`. */
  lemma DisableCommandExample()
    ensures CommandOf(Task("jdoe", "disable", "", 0)) == Some("Disable-ADAccount -Identity \"jdoe\"")
    ensures CommandOf(Task("jdoe", "removefromgroup", "Staff", 0))
      == Some("Remove-ADGroupMember -Identity \"Staff\" -Members \"jdoe\" -Confirm:$false")
    ensures CommandOf(Task("jdoe", "archive", "", 0)) == None
  {
    assert DisablePrefix + "jdoe" + Closing == "Disable-ADAccount -Identity \"jdoe\"";
    assert RemovePrefix + "Staff" + MembersInfix + "jdoe" + ConfirmClosing
      == "Remove-ADGroupMember -Identity \"Staff\" -Members \"jdoe\" -Confirm:$false";
  }
}
