/** The launcher script: the required-file check, the interactive keyword
    responder with its quit test, and the main menu that dispatches on the
    chosen option. Console input is a sequence of lines; whether files exist,
    whether the setup's imports succeed and what the responder's SELECTs
    return are parameters. */
module Launcher {
  import opened Text
  import Phase1Demo

  // ----- check_files ----------------------------------------------------------

  const RequiredFiles: seq<string> := ["database_setup.py", "phase1_demo.py"]

  /** The required files that do not exist, in the order they are required. */
  function MissingFiles(required: seq<string>, present: set<string>): seq<string>
  {
    if required == [] then []
    else MissingFiles(required[..|required| - 1], present)
         + (if required[|required| - 1] in present then [] else [required[|required| - 1]])
  }

  /** Filtering a concatenation filters each part in turn, so the report
      keeps the order of the requirement list. */
  lemma {:induction false} MissingFilesSpec(a: seq<string>, b: seq<string>, present: set<string>)
    ensures MissingFiles(a + b, present) == MissingFiles(a, present) + MissingFiles(b, present)
    decreases |b|
  {
    if b == [] {
      assert a + b == a;
    } else {
      var b', x := b[..|b| - 1], b[|b| - 1];
      assert (a + b)[..|a + b| - 1] == a + b' && (a + b)[|a + b| - 1] == x;
      MissingFilesSpec(a, b', present);
    }
  }

  /** A file is reported missing exactly when it is required and absent, and
      the report is empty exactly when every required file exists. */
  lemma {:induction false} MissingFilesMembers(a: seq<string>, present: set<string>)
    ensures forall f :: f in MissingFiles(a, present) <==> f in a && f !in present
    ensures |MissingFiles(a, present)| <= |a|
    ensures MissingFiles(a, present) == [] <==> forall f :: f in a ==> f in present
  {
    if a != [] {
      var a', x := a[..|a| - 1], a[|a| - 1];
      MissingFilesMembers(a', present);
      assert a == a' + [x];
      assert forall f :: f in a <==> f in a' || f == x;
    }
  }

  /** `check_files`: collects the missing files in a loop; the result is
      True exactly when every required file exists. */
  method CheckFiles(required: seq<string>, present: set<string>) returns (ok: bool, missing: seq<string>)
    ensures missing == MissingFiles(required, present)
    ensures ok <==> missing == []
    ensures ok <==> forall f :: f in required ==> f in present
  {
    missing := [];
    for i := 0 to |required|
      invariant missing == MissingFiles(required[..i], present)
    {
      assert required[..i + 1][..i] == required[..i];
      if required[i] !in present {
        missing := missing + [required[i]];
      }
    }
    assert required[..|required|] == required;
    MissingFilesMembers(required, present);
    ok := missing == [];
  }

  // ----- the interactive responder ----------------------------------------------

  /** The branch of interactive_query that answers an input line. */
  datatype Topic = Agra | Mutation | Khasra | Registry | Help | Fallback

  const AgraKeywords: seq<string> := ["agra", "आगरा"]
  const MutationKeywords: seq<string> := ["mutation", "म्यूटेशन"]
  const KhasraKeywords: seq<string> := ["khasra", "खसरा"]
  const RegistryKeywords: seq<string> := ["registry", "रजिस्ट्री"]
  const HelpKeywords: seq<string> := ["help", "मदद"]

  /** The if/elif chain of interactive_query, in its order: agra, mutation,
      khasra, registry, help. */
  const Rules: seq<Rule<Topic>> := [
    Rule(Agra, AgraKeywords), Rule(Mutation, MutationKeywords), Rule(Khasra, KhasraKeywords),
    Rule(Registry, RegistryKeywords), Rule(Help, HelpKeywords)]

  /** The branch that answers the lower-cased stripped input. */
  function Classify(input: string): Topic
  {
    FirstMatch(Rules, Lower(input), Fallback)
  }

  /** Exactly one branch answers: the first rule, in the order agra,
      mutation, khasra, registry, help, whose keywords occur in the
      lower-cased input, or the fallback when none does. */
  lemma ClassifyIsFirstMatch(input: string)
    ensures Classify(input) == Fallback <==> NoMatch(Rules, Lower(input))
    ensures forall i :: FirstMatchAt(Rules, Lower(input), i) ==> Classify(input) == Rules[i].topic
    ensures Classify(input) != Fallback ==>
      exists i :: FirstMatchAt(Rules, Lower(input), i) && Rules[i].topic == Classify(input)
  {
    FirstMatchSpec(Rules, Lower(input), Fallback);
    assert forall i :: 0 <= i < |Rules| ==> Rules[i].topic != Fallback;
  }

  /** The two responders order their keywords differently: a text that
      mentions both Agra and mutation gets the Agra answer here and the
      mutation answer in the scripted demo. */
  lemma OppositePrecedence(input: string)
    requires Contains(Lower(input), "agra") && Contains(Lower(input), "mutation")
    ensures Classify(input) == Agra
    ensures Phase1Demo.DemoClassify(input) == Phase1Demo.MutationTopic
  {
  }

  /** What the responder's SELECTs return: the COUNT and AVG(area_hectare)
      of the Agra records (AVG is NULL when no area is set) and the first FAQ
      answer tagged mutation. */
  datatype Lookups = Lookups(agraCount: nat, agraAverageArea: Option<real>, mutationAnswer: Option<string>)

  /** A printed answer: the Agra count and average area, a stored FAQ
      answer, or one of the fixed messages. */
  datatype Reply =
    | AgraSummary(count: nat, averageArea: real)
    | NoAgraRecords
    | FaqAnswer(text: string)
    | MutationInfo
    | KhasraInfo
    | RegistryDocuments
    | HelpTopics
    | AskClearer

  function Respond(input: string, lookups: Lookups): Reply
  {
    match Classify(input)
    case Agra =>
      if lookups.agraCount > 0 then AgraSummary(lookups.agraCount, Phase1Demo.OrZero(lookups.agraAverageArea))
      else NoAgraRecords
    case Mutation =>
      if lookups.mutationAnswer.Some? then FaqAnswer(lookups.mutationAnswer.value) else MutationInfo
    case Khasra => KhasraInfo
    case Registry => RegistryDocuments
    case Help => HelpTopics
    case Fallback => AskClearer
  }

  /** Each reply comes from exactly one branch: the Agra branch reports
      totals only for a positive count, with a NULL average read as 0, and
      says that nothing was found otherwise; the mutation branch prints the
      stored answer whole (no truncation, unlike the demo) or its fixed
      explanation; every other branch has its own fixed message. */
  lemma RespondShape(input: string, lookups: Lookups)
    ensures var r, t := Respond(input, lookups), Classify(input);
      && (t == Agra <==> r.AgraSummary? || r.NoAgraRecords?)
      && (r.AgraSummary? <==> t == Agra && lookups.agraCount > 0)
      && (r.AgraSummary? ==>
           r.count == lookups.agraCount
           && (lookups.agraAverageArea.None? ==> r.averageArea == 0.0)
           && (lookups.agraAverageArea.Some? ==> r.averageArea == lookups.agraAverageArea.value))
      && (t == Mutation <==> r.FaqAnswer? || r.MutationInfo?)
      && (r.FaqAnswer? <==> t == Mutation && lookups.mutationAnswer.Some?)
      && (r.FaqAnswer? ==> r.text == lookups.mutationAnswer.value)
      && (t == Khasra <==> r == KhasraInfo)
      && (t == Registry <==> r == RegistryDocuments)
      && (t == Help <==> r == HelpTopics)
      && (t == Fallback <==> r == AskClearer)
  {
  }

  /** `user_input.lower() in ['quit', 'exit', 'q']` on the stripped input. */
  predicate IsQuit(input: string)
  {
    Lower(input) in ["quit", "exit", "q"]
  }

  /** The position of the first quitting line, or the number of lines when
      none quits. */
  function QuitIndex(lines: seq<string>): (k: nat)
    ensures k <= |lines|
  {
    if lines == [] then 0
    else if IsQuit(Strip(lines[0])) then 0
    else 1 + QuitIndex(lines[1..])
  }

  /** The quit index is the first line that is a quit word: every line
      before it is not, and it is one unless it is the end of the input. */
  lemma {:induction false} QuitIndexSpec(lines: seq<string>)
    ensures forall i :: 0 <= i < QuitIndex(lines) ==> !IsQuit(Strip(lines[i]))
    ensures QuitIndex(lines) < |lines| ==> IsQuit(Strip(lines[QuitIndex(lines)]))
  {
    if lines != [] && !IsQuit(Strip(lines[0])) {
      QuitIndexSpec(lines[1..]);
      assert forall i :: 1 <= i < |lines| ==> lines[i] == lines[1..][i - 1];
    }
  }

  /** One interactive session over the remaining input: the replies to every
      line before the first quitting one, the number of lines read, and
      whether the session ended by quitting rather than at the end of the
      input. */
  datatype Session = Session(replies: seq<Reply>, consumed: nat, quit: bool)

  function SessionOver(lines: seq<string>, lookups: Lookups): (s: Session)
  {
    var k := QuitIndex(lines);
    Session(Replies(lines, k, lookups), if k < |lines| then k + 1 else k, k < |lines|)
  }

  /** The answers to the first `k` lines, in order. */
  function Replies(lines: seq<string>, k: nat, lookups: Lookups): seq<Reply>
    requires k <= |lines|
  {
    if k == 0 then [] else Replies(lines, k - 1, lookups) + [Respond(Strip(lines[k - 1]), lookups)]
  }

  lemma {:induction false} RepliesAt(lines: seq<string>, k: nat, lookups: Lookups)
    requires k <= |lines|
    ensures |Replies(lines, k, lookups)| == k
    ensures forall i :: 0 <= i < k ==> Replies(lines, k, lookups)[i] == Respond(Strip(lines[i]), lookups)
  {
    if k > 0 {
      RepliesAt(lines, k - 1, lookups);
    }
  }

  /** `interactive_query`: reads lines until one strips and lower-cases to a
      quit word, answering each line before it. A quitting line gets no
      answer; the lines after it are left for the menu. Reaching the end of
      the input stops the session. */
  method InteractiveQuery(lines: seq<string>, lookups: Lookups) returns (replies: seq<Reply>, consumed: nat, quit: bool)
    ensures Session(replies, consumed, quit) == SessionOver(lines, lookups)
  {
    var answered;
    replies, answered := AnswerUntilQuit(lines, lookups);
    quit := answered < |lines|;
    consumed := if quit then answered + 1 else answered;
  }

  /** The loop of interactive_query: answers lines until one is a quit word
      or the input ends; `answered` is the number of lines answered. */
  method AnswerUntilQuit(lines: seq<string>, lookups: Lookups) returns (replies: seq<Reply>, answered: nat)
    ensures answered == QuitIndex(lines)
    ensures replies == Replies(lines, answered, lookups)
  {
    QuitIndexSpec(lines);
    replies := [];
    answered := 0;
    while answered < |lines|
      invariant answered <= QuitIndex(lines)
      invariant replies == Replies(lines, answered, lookups)
    {
      var input := Strip(lines[answered]);
      if IsQuit(input) {
        break;
      }
      var reply := Respond(input, lookups);
      assert Replies(lines, answered + 1, lookups) == replies + [reply];
      replies := replies + [reply];
      answered := answered + 1;
    }
  }

  /** A session answers every line before the first quitting one, in order,
      and reads the quitting line too; it quits exactly when some line is a
      quit word, and otherwise reads the whole input. */
  lemma SessionShape(lines: seq<string>, lookups: Lookups)
    ensures var s := SessionOver(lines, lookups);
      && s.consumed <= |lines|
      && (s.quit <==> exists i :: 0 <= i < |lines| && IsQuit(Strip(lines[i])))
      && (!s.quit ==> s.consumed == |lines|)
      && |s.replies| == s.consumed - (if s.quit then 1 else 0)
      && (s.quit ==> IsQuit(Strip(lines[|s.replies|])))
      && forall i :: 0 <= i < |s.replies| ==>
           !IsQuit(Strip(lines[i])) && s.replies[i] == Respond(Strip(lines[i]), lookups)
  {
    QuitIndexSpec(lines);
    RepliesAt(lines, QuitIndex(lines), lookups);
  }

  // ----- the main menu ------------------------------------------------------------

  /** Which files exist, whether importing the setup module succeeds,
      whether importing the demo module (which needs pandas) succeeds, and
      what the responder's SELECTs return in the session started at a given
      input position. */
  datatype Environment = Environment(present: set<string>, importsOk: bool, demoImportsOk: bool, lookups: nat -> Lookups)

  /** What one menu choice did. */
  datatype MenuEvent =
    | QuickSetup(missing: seq<string>, setupOk: bool)
    | SetupOnly(missing: seq<string>, setupOk: bool)
    | RanDemo
    | Interactive(replies: seq<Reply>, quit: bool)
    | ShowedStats
    | DatabaseNotFound
    | Exit
    | Invalid

  /** `setup_database` with the setup script's main block run: it reports
      whether the import succeeded and, when it did, the database file
      exists afterwards. */
  function SetupDatabase(dbExists: bool, importsOk: bool): (r: (bool, bool))
    ensures r.0 == importsOk
    ensures r.1 <==> dbExists || importsOk
  {
    (importsOk, dbExists || importsOk)
  }

  /** `setup_database` as written: importing the setup module does not run
      its main block, so it reports success but leaves the files as they
      were. */
  function SetupDatabaseAsWritten(dbExists: bool, importsOk: bool): (r: (bool, bool))
    ensures r.0 == importsOk
    ensures r.1 == dbExists
  {
    (importsOk, dbExists)
  }

  /** The option a menu line selects, after stripping. */
  datatype Choice = QuickSetupChoice | SetupChoice | DemoChoice | QueryChoice | StatsChoice | ExitChoice | OtherChoice

  function ParseChoice(line: string): Choice
  {
    var choice := Strip(line);
    if choice == "1" then QuickSetupChoice
    else if choice == "2" then SetupChoice
    else if choice == "3" then DemoChoice
    else if choice == "4" then QueryChoice
    else if choice == "5" then StatsChoice
    else if choice == "6" then ExitChoice
    else OtherChoice
  }

  /** Only the stripped texts "1" to "6" select an option, and "6" alone
      selects Exit. */
  lemma ParseChoiceSpec(line: string)
    ensures ParseChoice(line) == OtherChoice <==> Strip(line) !in ["1", "2", "3", "4", "5", "6"]
    ensures ParseChoice(line) == ExitChoice <==> Strip(line) == "6"
  {
  }

  /** Which `setup_database` the menu runs: the one written, whose import
      leaves the database as it was, or the corrected one that runs the
      setup script's main block. */
  datatype SetupVariant = AsWritten | MainBlockRun

  function SetupDatabaseOf(v: SetupVariant, dbExists: bool, importsOk: bool): (bool, bool)
  {
    match v
    case AsWritten => SetupDatabaseAsWritten(dbExists, importsOk)
    case MainBlockRun => SetupDatabase(dbExists, importsOk)
  }

  /** `check_files() and setup_database()`: the setup runs only when no
      required file is missing; the result is whether it succeeded and
      whether the database exists afterwards. */
  function SetupStep(v: SetupVariant, missing: seq<string>, dbExists: bool, importsOk: bool): (bool, bool)
  {
    if missing == [] then SetupDatabaseOf(v, dbExists, importsOk) else (false, dbExists)
  }

  /** Whether the database exists after option 1: `run_demo` follows a
      successful setup, and when the demo module imports, the demo object's
      constructor opens, and so creates, the database file. */
  function AfterQuickSetup(setup: (bool, bool), env: Environment): bool
  {
    setup.1 || (setup.0 && env.demoImportsOk)
  }

  /** The choice read at `pos`, then what it does: its event, whether the
      database exists afterwards and where the next choice is read. */
  datatype Step = Step(event: MenuEvent, dbExists: bool, next: nat)

  function MenuStep(lines: seq<string>, pos: nat, dbExists: bool, env: Environment, v: SetupVariant): (s: Step)
    requires pos < |lines|
    ensures pos < s.next <= |lines|
    ensures s.event == Exit <==> ParseChoice(lines[pos]) == ExitChoice
  {
    var missing := MissingFiles(RequiredFiles, env.present);
    match ParseChoice(lines[pos])
    case QuickSetupChoice =>
      var setup := SetupStep(v, missing, dbExists, env.importsOk);
      Step(QuickSetup(missing, setup.0), AfterQuickSetup(setup, env), pos + 1)
    case SetupChoice =>
      var setup := SetupStep(v, missing, dbExists, env.importsOk);
      Step(SetupOnly(missing, setup.0), setup.1, pos + 1)
    case DemoChoice => Step(if dbExists then RanDemo else DatabaseNotFound, dbExists, pos + 1)
    case QueryChoice =>
      if dbExists then
        var session := SessionOver(lines[pos + 1..], env.lookups(pos));
        Step(Interactive(session.replies, session.quit), dbExists, pos + 1 + session.consumed)
      else Step(DatabaseNotFound, dbExists, pos + 1)
    case StatsChoice => Step(if dbExists then ShowedStats else DatabaseNotFound, dbExists, pos + 1)
    case ExitChoice => Step(Exit, dbExists, pos + 1)
    case OtherChoice => Step(Invalid, dbExists, pos + 1)
  }

  /** The rest of a menu run from input position `pos`: the events, whether
      the user chose to exit, and whether the database exists at the end.
      The end of the input ends the run. */
  datatype Outcome = Outcome(events: seq<MenuEvent>, exited: bool, dbExists: bool)

  function MenuRun(lines: seq<string>, pos: nat, dbExists: bool, env: Environment, v: SetupVariant): (o: Outcome)
    requires pos <= |lines|
    decreases |lines| - pos
  {
    if pos == |lines| then Outcome([], false, dbExists)
    else if ParseChoice(lines[pos]) == ExitChoice then Outcome([Exit], true, dbExists)
    else
      var step := MenuStep(lines, pos, dbExists, env, v);
      var rest := MenuRun(lines, step.next, step.dbExists, env, v);
      Outcome([step.event] + rest.events, rest.exited, rest.dbExists)
  }

  /** Choice 6 is the only way out: a run exits exactly when its last event
      is Exit, and no earlier event is. */
  lemma {:induction false} ExitOnlyAtEnd(lines: seq<string>, pos: nat, dbExists: bool, env: Environment, v: SetupVariant)
    requires pos <= |lines|
    ensures var o := MenuRun(lines, pos, dbExists, env, v);
      (o.exited <==> |o.events| > 0 && o.events[|o.events| - 1] == Exit)
      && forall i :: 0 <= i < |o.events| - 1 ==> o.events[i] != Exit
    decreases |lines| - pos
  {
    if pos < |lines| && ParseChoice(lines[pos]) != ExitChoice {
      var step := MenuStep(lines, pos, dbExists, env, v);
      ExitOnlyAtEnd(lines, step.next, step.dbExists, env, v);
      var rest := MenuRun(lines, step.next, step.dbExists, env, v);
      assert step.event != Exit;
      assert MenuRun(lines, pos, dbExists, env, v).events == [step.event] + rest.events;
    }
  }

  /** A choice outside 1-6 is reported as invalid and the menu carries on
      with the next line, the database untouched. */
  lemma InvalidChoiceContinues(lines: seq<string>, pos: nat, dbExists: bool, env: Environment, v: SetupVariant)
    requires pos < |lines| && Strip(lines[pos]) !in ["1", "2", "3", "4", "5", "6"]
    ensures MenuRun(lines, pos, dbExists, env, v).events == [Invalid] + MenuRun(lines, pos + 1, dbExists, env, v).events
    ensures MenuRun(lines, pos, dbExists, env, v).exited == MenuRun(lines, pos + 1, dbExists, env, v).exited
  {
    ParseChoiceSpec(lines[pos]);
  }

  /** Choices 3, 4 and 5 do their work exactly when the database exists and
      report that it is missing otherwise; they never create it. Setup
      succeeds exactly when every required file exists and the import
      succeeds. As written, option 2 never creates the database and option 1
      creates it only through the demo object; with the main block run, a
      successful setup creates it. */
  lemma GatedChoices(lines: seq<string>, pos: nat, dbExists: bool, env: Environment, v: SetupVariant)
    requires pos < |lines|
    ensures var choice, s := ParseChoice(lines[pos]), MenuStep(lines, pos, dbExists, env, v);
      && (choice in {DemoChoice, QueryChoice, StatsChoice} ==>
            (s.event == DatabaseNotFound <==> !dbExists) && s.dbExists == dbExists)
      && (choice in {QuickSetupChoice, SetupChoice} ==>
            (s.event.setupOk <==> (forall f :: f in RequiredFiles ==> f in env.present) && env.importsOk))
      && (v == AsWritten && choice == SetupChoice ==> s.dbExists == dbExists)
      && (v == AsWritten && choice == QuickSetupChoice ==>
            (s.dbExists <==> dbExists || (s.event.setupOk && env.demoImportsOk)))
      && (v == MainBlockRun && choice in {QuickSetupChoice, SetupChoice} ==>
            (s.dbExists <==> dbExists || s.event.setupOk))
  {
    MissingFilesMembers(RequiredFiles, env.present);
  }

  /** The setup half of options 1 and 2: check_files, then setup_database
      when nothing is missing. */
  method RunSetup(dbExists0: bool, env: Environment, v: SetupVariant) returns (missing: seq<string>, setupOk: bool, dbExists: bool)
    ensures missing == MissingFiles(RequiredFiles, env.present)
    ensures (setupOk, dbExists) == SetupStep(v, missing, dbExists0, env.importsOk)
  {
    var filesOk;
    filesOk, missing := CheckFiles(RequiredFiles, env.present);
    setupOk, dbExists := false, dbExists0;
    if filesOk {
      var r := SetupDatabaseOf(v, dbExists0, env.importsOk);
      setupOk, dbExists := r.0, r.1;
    }
  }

  /** One round of the menu for a choice other than 6. */
  method MenuRound(lines: seq<string>, pos: nat, dbExists0: bool, env: Environment, v: SetupVariant)
    returns (event: MenuEvent, dbExists: bool, next: nat)
    requires pos < |lines| && ParseChoice(lines[pos]) != ExitChoice
    ensures Step(event, dbExists, next) == MenuStep(lines, pos, dbExists0, env, v)
  {
    dbExists, next := dbExists0, pos + 1;
    match ParseChoice(lines[pos]) {
      case QuickSetupChoice =>
        var missing, setupOk;
        missing, setupOk, dbExists := RunSetup(dbExists0, env, v);
        // run_demo() after a successful setup builds the demo object
        dbExists := dbExists || (setupOk && env.demoImportsOk);
        event := QuickSetup(missing, setupOk);
      case SetupChoice =>
        var missing, setupOk;
        missing, setupOk, dbExists := RunSetup(dbExists0, env, v);
        event := SetupOnly(missing, setupOk);
      case DemoChoice =>
        event := if dbExists then RanDemo else DatabaseNotFound;
      case QueryChoice =>
        if dbExists {
          var replies, consumed, quit := InteractiveQuery(lines[pos + 1..], env.lookups(pos));
          event := Interactive(replies, quit);
          next := pos + 1 + consumed;
        } else {
          event := DatabaseNotFound;
        }
      case StatsChoice =>
        event := if dbExists then ShowedStats else DatabaseNotFound;
      case OtherChoice =>
        event := Invalid;
    }
  }

  /** Choice 6 ends the run; any other round contributes its event and
      hands over to the rest of the run. */
  lemma MenuRunStep(lines: seq<string>, pos: nat, dbExists: bool, env: Environment, v: SetupVariant)
    requires pos < |lines|
    ensures ParseChoice(lines[pos]) == ExitChoice ==> MenuRun(lines, pos, dbExists, env, v) == Outcome([Exit], true, dbExists)
    ensures ParseChoice(lines[pos]) != ExitChoice ==>
      var step := MenuStep(lines, pos, dbExists, env, v);
      var rest := MenuRun(lines, step.next, step.dbExists, env, v);
      MenuRun(lines, pos, dbExists, env, v) == Outcome([step.event] + rest.events, rest.exited, rest.dbExists)
  {
  }

  /** `main_menu`: reads a choice per round and dispatches on it until
      choice 6 or the end of the input. */
  method MainMenu(lines: seq<string>, dbExists0: bool, env: Environment, v: SetupVariant)
    returns (events: seq<MenuEvent>, exited: bool, dbExists: bool)
    ensures Outcome(events, exited, dbExists) == MenuRun(lines, 0, dbExists0, env, v)
  {
    events, exited, dbExists := [], false, dbExists0;
    var pos := 0;
    while pos < |lines|
      invariant pos <= |lines|
      invariant MenuRun(lines, 0, dbExists0, env, v) ==
        var rest := MenuRun(lines, pos, dbExists, env, v); Outcome(events + rest.events, rest.exited, rest.dbExists)
      decreases |lines| - pos
    {
      MenuRunStep(lines, pos, dbExists, env, v);
      if ParseChoice(lines[pos]) == ExitChoice {
        events, exited := events + [Exit], true;
        return;
      }
      var event, next;
      event, dbExists, next := MenuRound(lines, pos, dbExists, env, v);
      ghost var rest := MenuRun(lines, next, dbExists, env, v);
      assert (events + [event]) + rest.events == events + ([event] + rest.events);
      events := events + [event];
      pos := next;
    }
  }

  /** "Setup Database Only" as written reports success on a fresh install
      and leaves no database behind, so choosing Run Demo next says the
      database is missing; with the main block run, the demo runs. */
  lemma SetupThenDemo(env: Environment)
    requires forall f :: f in RequiredFiles ==> f in env.present
    requires env.importsOk
    ensures MenuRun(["2", "3"], 0, false, env, AsWritten).events == [SetupOnly([], true), DatabaseNotFound]
    ensures MenuRun(["2", "3"], 0, false, env, MainBlockRun).events == [SetupOnly([], true), RanDemo]
  {
    var lines := ["2", "3"];
    MissingFilesMembers(RequiredFiles, env.present);
    assert Strip(lines[0]) == "2" && Strip(lines[1]) == "3";
    assert MenuStep(lines, 0, false, env, AsWritten) == Step(SetupOnly([], true), false, 1);
    assert MenuStep(lines, 1, false, env, AsWritten) == Step(DatabaseNotFound, false, 2);
    assert MenuStep(lines, 0, false, env, MainBlockRun) == Step(SetupOnly([], true), true, 1);
    assert MenuStep(lines, 1, true, env, MainBlockRun) == Step(RanDemo, true, 2);
  }

  /** As written, the quick setup is the only menu path that creates the
      database on a fresh install, and it does so through the demo object:
      choosing 1 and then 3 runs the demo exactly when the demo module
      imports. */
  lemma QuickSetupCreatesThroughDemo(env: Environment)
    requires forall f :: f in RequiredFiles ==> f in env.present
    requires env.importsOk
    ensures MenuRun(["1", "3"], 0, false, env, AsWritten).events
      == [QuickSetup([], true), if env.demoImportsOk then RanDemo else DatabaseNotFound]
  {
    var lines := ["1", "3"];
    MissingFilesMembers(RequiredFiles, env.present);
    assert Strip(lines[0]) == "1" && Strip(lines[1]) == "3";
    assert MenuStep(lines, 0, false, env, AsWritten) == Step(QuickSetup([], true), env.demoImportsOk, 1);
  }
}
