/** `manage_licenses` of app.py: the roster diff between yesterday and today,
    the exemption policy, the two apply loops that drive the license API and
    record failures without stopping, and the counts and failure lists of the
    run summary. The license API (`unassign_license`, `assign_license`) is an
    `Actuator` object that answers every call with an outcome and remembers the
    calls made; the Telegram message itself is not part of this model. */
module App {
  import opened Wrappers
  import opened Strings
  import opened DayUtils
  import opened GetSchedule

  // ---------------------------------------------------------------------
  // Roster diff (app.py lines 49-68)
  // ---------------------------------------------------------------------

  /** The three work sets of one run. */
  datatype Plan = Plan(unassign: set<string>, exempted: set<string>, assign: set<string>)

  /** The roster diff: users needed yesterday but not today lose their license
      unless exempt, exempt ones are reported instead, and users needed today
      but not yesterday gain one. Users on both rosters are left alone, the two
      work sets never meet, and exemption never blocks an assignment. */
  function Reconcile(today: set<string>, yesterday: set<string>, exempt: seq<string>): (p: Plan)
    ensures p.unassign !! p.assign
    ensures forall u :: u in today && u in yesterday ==> u !in p.unassign && u !in p.assign
    ensures p.unassign !! p.exempted && p.unassign + p.exempted == yesterday - today
    ensures forall u :: u in p.exempted <==> u in yesterday && u !in today && u in exempt
    ensures forall u :: u in p.unassign <==> u in yesterday && u !in today && u !in exempt
    ensures forall u :: u in p.assign <==> u in today && u !in yesterday
  {
    var gone := yesterday - today;
    var leaving := set u | u in gone && u !in exempt;
    var kept := set u | u in gone && u in exempt;
    Plan(leaving, kept, today - yesterday)
  }

  /** The comprehension `[email for email in gone if email not in EXEMPT_USERS]`. */
  function NotExempt(gone: seq<string>, exempt: seq<string>): (kept: seq<string>)
    ensures |kept| <= |gone|
    ensures forall u :: u in kept <==> u in gone && u !in exempt
  {
    if |gone| == 0 then []
    else
      var rest := NotExempt(gone[1..], exempt);
      assert forall u :: u in gone <==> u == gone[0] || u in gone[1..];
      if gone[0] !in exempt then [gone[0]] + rest else rest
  }

  /** The comprehension `[email for email in gone if email in EXEMPT_USERS]`. */
  function OnlyExempt(gone: seq<string>, exempt: seq<string>): (kept: seq<string>)
    ensures |kept| <= |gone|
    ensures forall u :: u in kept <==> u in gone && u in exempt
  {
    if |gone| == 0 then []
    else
      var rest := OnlyExempt(gone[1..], exempt);
      assert forall u :: u in gone <==> u == gone[0] || u in gone[1..];
      if gone[0] in exempt then [gone[0]] + rest else rest
  }

  /** The two comprehensions split the departing users between them: together
      they are as long as the list they filter, so each user lands in exactly
      one of them. */
  lemma {:induction false} ExemptionSplitsDepartures(gone: seq<string>, exempt: seq<string>)
    ensures |NotExempt(gone, exempt)| + |OnlyExempt(gone, exempt)| == |gone|
  {
    if |gone| > 0 {
      ExemptionSplitsDepartures(gone[1..], exempt);
    }
  }

  /** No element repeats. */
  predicate Distinct(xs: seq<string>) {
    forall i, j :: 0 <= i < j < |xs| ==> xs[i] != xs[j]
  }

  /** `xs` lists every element of `s` once: a Python iteration over the set. */
  ghost predicate Enumerates(xs: seq<string>, s: set<string>) {
    Distinct(xs) && forall u :: u in xs <==> u in s
  }
  /** A list that enumerates a set without repeats is exactly as long as the set. */
  lemma {:induction false} EnumeratesSize(xs: seq<string>, s: set<string>)
    requires Enumerates(xs, s)
    ensures |xs| == |s|
    decreases |xs|
  {
    if xs != [] {
      var init, last := xs[..|xs| - 1], xs[|xs| - 1];
      assert xs == init + [last];
      assert Enumerates(init, s - {last}) by {
        forall u ensures u in init <==> u in s - {last} {
          if u in init {
            var k :| 0 <= k < |init| && init[k] == u;
            assert xs[k] != xs[|xs| - 1];
          }
        }
      }
      EnumeratesSize(init, s - {last});
    }
  }


  /** Filtering a list without repeats gives a list without repeats. */
  lemma {:induction false} FiltersKeepDistinct(gone: seq<string>, exempt: seq<string>)
    requires Distinct(gone)
    ensures Distinct(NotExempt(gone, exempt)) && Distinct(OnlyExempt(gone, exempt))
  {
    if |gone| > 0 {
      FiltersKeepDistinct(gone[1..], exempt);
      assert gone[0] !in gone[1..] by {
        forall k | 0 <= k < |gone| - 1 ensures gone[1..][k] != gone[0] {
          assert gone[1..][k] == gone[k + 1];
        }
      }
    }
  }

  /** Iterating over a set: the elements in an arbitrary order, each once. */
  method SetToSeq(s: set<string>) returns (xs: seq<string>)
    ensures Enumerates(xs, s)
    ensures |xs| == |s|
  {
    xs := [];
    var rest := s;
    while rest != {}
      invariant rest <= s
      invariant forall u :: u in xs <==> u in s && u !in rest
      invariant Distinct(xs)
      invariant |xs| + |rest| == |s|
      decreases rest
    {
      var u :| u in rest;
      xs := xs + [u];
      rest := rest - {u};
    }
  }

  // ---------------------------------------------------------------------
  // The license API and the apply loops (app.py lines 75-112)
  // ---------------------------------------------------------------------

  /** What one call of `unassign_license` or `assign_license` does: return
      `True`, return `False`, or raise an exception whose `str` is `message`. */
  datatype Outcome = Succeeded | Refused | Raised(message: string)

  datatype Action = Unassign | Assign

  /** One call of the license API. */
  datatype Call = Call(action: Action, email: string)

  /** The license API as seen by `manage_licenses`. Each call gets the answer
      `answer` gives it; since a run makes every call at most once, a function
      of the call covers every sequence of answers a run can receive. */
  class Actuator {
    const answer: Call -> Outcome
    /** The calls made so far, oldest first. */
    var log: seq<Call>

    constructor (answer: Call -> Outcome)
      ensures this.answer == answer && log == []
    {
      this.answer := answer;
      log := [];
    }

    /** `unassign_license(email)`. */
    method UnassignLicense(email: string) returns (o: Outcome)
      modifies this
      ensures log == old(log) + [Call(Unassign, email)]
      ensures o == answer(Call(Unassign, email))
    {
      log := log + [Call(Unassign, email)];
      o := answer(Call(Unassign, email));
    }

    /** `assign_license(email)`. */
    method AssignLicense(email: string) returns (o: Outcome)
      modifies this
      ensures log == old(log) + [Call(Assign, email)]
      ensures o == answer(Call(Assign, email))
    {
      log := log + [Call(Assign, email)];
      o := answer(Call(Assign, email));
    }
  }

  /** One entry `(email, message)` of `failed_unassign` or `failed_assign`. */
  datatype FailedOp = FailedOp(email: string, error: string)

  /** The fixed message recorded when the API returns `False`. */
  function RefusalMessage(action: Action): string {
    match action
    case Unassign => "Failed to unassign license"
    case Assign => "Failed to assign license"
  }

  /** The message recorded for an outcome that is not a success. */
  function ErrorMessage(action: Action, o: Outcome): (m: string)
    ensures o.Raised? ==> m == o.message
    ensures !o.Raised? ==> m == RefusalMessage(action)
  {
    match o
    case Raised(message) => message
    case _ => RefusalMessage(action)
  }

  /** The calls one loop makes: one per e-mail, in list order. */
  function Calls(action: Action, emails: seq<string>): (calls: seq<Call>)
    ensures |calls| == |emails|
    ensures forall i :: 0 <= i < |emails| ==> calls[i] == Call(action, emails[i])
  {
    seq(|emails|, i requires 0 <= i < |emails| => Call(action, emails[i]))
  }

  /** The failure entries for one e-mail: none on success, otherwise one with
      the e-mail and its message. */
  function FailureEntry(action: Action, email: string, o: Outcome): (entries: seq<FailedOp>)
    ensures |entries| <= 1
    ensures entries == [] <==> o == Succeeded
    ensures entries != [] ==> entries[0].email == email && entries[0].error == ErrorMessage(action, o)
  {
    if o == Succeeded then [] else [FailedOp(email, ErrorMessage(action, o))]
  }

  /** The failure list one loop builds: for each e-mail whose call does not
      succeed, one entry with that e-mail and its message, in list order. */
  function Failures(action: Action, emails: seq<string>, answer: Call -> Outcome): (failed: seq<FailedOp>)
    ensures |failed| <= |emails|
  {
    if |emails| == 0 then []
    else
      var init, email := emails[..|emails| - 1], emails[|emails| - 1];
      Failures(action, init, answer) + FailureEntry(action, email, answer(Call(action, email)))
  }

  /** Every failure entry belongs to an e-mail of the list whose call did not
      succeed, and carries that call's message. */
  lemma {:induction false} FailuresAreFailedCalls(action: Action, emails: seq<string>, answer: Call -> Outcome)
    ensures forall f :: f in Failures(action, emails, answer) ==>
      f.email in emails && answer(Call(action, f.email)) != Succeeded &&
      f.error == ErrorMessage(action, answer(Call(action, f.email)))
  {
    if |emails| > 0 {
      var init := emails[..|emails| - 1];
      FailuresAreFailedCalls(action, init, answer);
      assert forall e :: e in init ==> e in emails;
    }
  }

  /** The e-mails whose call succeeds, in list order. */
  function Successes(action: Action, emails: seq<string>, answer: Call -> Outcome): (ok: seq<string>)
    ensures |ok| <= |emails|
    ensures forall e :: e in ok ==> e in emails && answer(Call(action, e)) == Succeeded
  {
    if |emails| == 0 then []
    else
      var init, email := emails[..|emails| - 1], emails[|emails| - 1];
      assert forall e :: e in init ==> e in emails;
      Successes(action, init, answer) + (if answer(Call(action, email)) == Succeeded then [email] else [])
  }

  /** Every e-mail is either a success or has exactly one failure entry: the
      success count `total - len(failed)` is the number of successful calls. */
  lemma {:induction false} FailuresPlusSuccesses(action: Action, emails: seq<string>, answer: Call -> Outcome)
    ensures |Failures(action, emails, answer)| + |Successes(action, emails, answer)| == |emails|
  {
    if |emails| > 0 {
      FailuresPlusSuccesses(action, emails[..|emails| - 1], answer);
    }
  }

  /** An e-mail whose call does not succeed gets a failure entry. */
  lemma {:induction false} FailureRecorded(action: Action, emails: seq<string>, answer: Call -> Outcome, email: string)
    requires email in emails && answer(Call(action, email)) != Succeeded
    ensures FailedOp(email, ErrorMessage(action, answer(Call(action, email)))) in Failures(action, emails, answer)
  {
    var init, last := emails[..|emails| - 1], emails[|emails| - 1];
    if email != last {
      assert emails == init + [last];
      FailureRecorded(action, init, answer, email);
    }
  }

  /** Failures of consecutive stretches of the list follow one another: a
      failure does not reorder or stop the processing of later e-mails. */
  lemma {:induction false} FailuresConcat(action: Action, xs: seq<string>, ys: seq<string>, answer: Call -> Outcome)
    ensures Failures(action, xs + ys, answer) == Failures(action, xs, answer) + Failures(action, ys, answer)
  {
    if |ys| == 0 {
      assert xs + ys == xs;
    } else {
      var zs := xs + ys;
      var init, last := ys[..|ys| - 1], ys[|ys| - 1];
      FailuresConcat(action, xs, init, answer);
      var entry := FailureEntry(action, last, answer(Call(action, last)));
      FailuresSnoc(action, init, last, answer);
      assert ys == init + [last];
      assert zs == (xs + init) + [last];
      FailuresSnoc(action, xs + init, last, answer);
      AppendAssoc(Failures(action, xs, answer), Failures(action, init, answer), entry);
    }
  }

  /** Appending one e-mail appends its failure entry. */
  lemma FailuresSnoc(action: Action, emails: seq<string>, email: string, answer: Call -> Outcome)
    ensures Failures(action, emails + [email], answer)
         == Failures(action, emails, answer) + FailureEntry(action, email, answer(Call(action, email)))
  {
    var zs := emails + [email];
    assert zs[..|zs| - 1] == emails;
  }

  /** Associativity of sequence concatenation. */
  lemma AppendAssoc<T>(a: seq<T>, b: seq<T>, c: seq<T>)
    ensures (a + b) + c == a + (b + c)
  {
  }

  /** A list where every call succeeds records no failure. */
  lemma {:induction false} AllSucceededNoFailures(action: Action, emails: seq<string>, answer: Call -> Outcome)
    requires forall e :: e in emails ==> answer(Call(action, e)) == Succeeded
    ensures Failures(action, emails, answer) == []
  {
    if |emails| > 0 {
      assert forall e :: e in emails[..|emails| - 1] ==> e in emails;
      AllSucceededNoFailures(action, emails[..|emails| - 1], answer);
    }
  }

  /** One call that raises among calls that succeed costs exactly that one
      success: the failure list is that single entry with the exception text. */
  lemma OneRaisingCall(action: Action, before: seq<string>, email: string, after: seq<string>, answer: Call -> Outcome, message: string)
    requires forall e :: e in before + after ==> answer(Call(action, e)) == Succeeded
    requires answer(Call(action, email)) == Raised(message)
    ensures Failures(action, before + [email] + after, answer) == [FailedOp(email, message)]
  {
    AllSucceededNoFailures(action, before, answer);
    AllSucceededNoFailures(action, after, answer);
    FailuresConcat(action, before, [email], answer);
    FailuresConcat(action, before + [email], after, answer);
    assert [email][..0] == [];
    assert Failures(action, [email], answer) == [FailedOp(email, message)];
  }

  /** One apply loop: every e-mail is tried once, in order; a refusal or an
      exception adds one failure entry and the loop goes on. */
  method ApplyAll(pool: Actuator, action: Action, emails: seq<string>) returns (failed: seq<FailedOp>)
    modifies pool
    ensures pool.log == old(pool.log) + Calls(action, emails)
    ensures failed == Failures(action, emails, pool.answer)
  {
    failed := [];
    for i := 0 to |emails|
      invariant pool.log == old(pool.log) + Calls(action, emails[..i])
      invariant failed == Failures(action, emails[..i], pool.answer)
    {
      var email := emails[i];
      var outcome;
      if action == Unassign {
        outcome := pool.UnassignLicense(email);
      } else {
        outcome := pool.AssignLicense(email);
      }
      match outcome {
        case Succeeded =>
        case Refused => failed := failed + [FailedOp(email, RefusalMessage(action))];
        case Raised(message) => failed := failed + [FailedOp(email, message)];
      }
      assert failed == Failures(action, emails[..i], pool.answer) + FailureEntry(action, email, outcome);
      PrefixStep(action, emails, i, pool.answer);
      AppendAssoc(old(pool.log), Calls(action, emails[..i]), [Call(action, email)]);
    }
    assert emails[..|emails|] == emails;
  }

  /** Extending the processed prefix by one e-mail adds its call to the calls
      and its entry to the failures. */
  lemma PrefixStep(action: Action, emails: seq<string>, i: nat, answer: Call -> Outcome)
    requires i < |emails|
    ensures Calls(action, emails[..i + 1]) == Calls(action, emails[..i]) + [Call(action, emails[i])]
    ensures Failures(action, emails[..i + 1], answer)
         == Failures(action, emails[..i], answer) + FailureEntry(action, emails[i], answer(Call(action, emails[i])))
  {
    assert emails[..i + 1][..i] == emails[..i];
  }

  /** The calls of a whole run: all unassignments, then all assignments. */
  function RunCalls(toUnassign: seq<string>, toAssign: seq<string>): seq<Call> {
    Calls(Unassign, toUnassign) + Calls(Assign, toAssign)
  }

  /** In the calls of a run every unassignment comes before every assignment,
      and the calls are exactly one per work item of either list. */
  lemma RunCallsOrder(toUnassign: seq<string>, toAssign: seq<string>)
    ensures var calls := RunCalls(toUnassign, toAssign);
      && (forall i, j :: 0 <= i < j < |calls| && calls[i].action == Assign ==> calls[j].action == Assign)
      && (forall c :: c in calls <==> (c.action == Unassign && c.email in toUnassign) || (c.action == Assign && c.email in toAssign))
  {
    var calls := RunCalls(toUnassign, toAssign);
    var n := |toUnassign|;
    assert forall i :: 0 <= i < |calls| ==> calls[i] == if i < n then Call(Unassign, toUnassign[i]) else Call(Assign, toAssign[i - n]);
  }

  /** With work lists without repeats, no call of a run repeats: each work
      item is called exactly once. */
  lemma RunCallsOnce(toUnassign: seq<string>, toAssign: seq<string>)
    requires Distinct(toUnassign) && Distinct(toAssign)
    ensures var calls := RunCalls(toUnassign, toAssign);
      forall i, j :: 0 <= i < j < |calls| ==> calls[i] != calls[j]
  {
    var calls := RunCalls(toUnassign, toAssign);
    var n := |toUnassign|;
    assert forall i :: 0 <= i < |calls| ==> calls[i] == if i < n then Call(Unassign, toUnassign[i]) else Call(Assign, toAssign[i - n]);
  }

  // ---------------------------------------------------------------------
  // Counts and failure text of the summary (app.py lines 115-134)
  // ---------------------------------------------------------------------

  /** The four counts of the summary. */
  datatype Summary = Summary(totalUnassigned: int, successUnassign: int, totalAssigned: int, successAssign: int)

  /** `total - len(failed)` for both actions. */
  function Summarize(toUnassign: seq<string>, failedUnassign: seq<FailedOp>, toAssign: seq<string>, failedAssign: seq<FailedOp>): (s: Summary)
    ensures s.totalUnassigned == |toUnassign| && s.totalAssigned == |toAssign|
    ensures s.successUnassign <= s.totalUnassigned && s.successAssign <= s.totalAssigned
    ensures |failedUnassign| <= |toUnassign| ==> 0 <= s.successUnassign
    ensures |failedAssign| <= |toAssign| ==> 0 <= s.successAssign
  {
    Summary(|toUnassign|, |toUnassign| - |failedUnassign|, |toAssign|, |toAssign| - |failedAssign|)
  }

  /** With the failure lists of the loops, each success count is the number of
      calls that succeeded, between zero and the total. */
  lemma SummaryCounts(toUnassign: seq<string>, toAssign: seq<string>, answer: Call -> Outcome)
    ensures var s := Summarize(toUnassign, Failures(Unassign, toUnassign, answer), toAssign, Failures(Assign, toAssign, answer));
      && s.successUnassign == |Successes(Unassign, toUnassign, answer)|
      && s.successAssign == |Successes(Assign, toAssign, answer)|
      && 0 <= s.successUnassign <= s.totalUnassigned
      && 0 <= s.successAssign <= s.totalAssigned
  {
    FailuresPlusSuccesses(Unassign, toUnassign, answer);
    FailuresPlusSuccesses(Assign, toAssign, answer);
  }

  /** The bullet that starts every line. */
  const Bullet: string := "\U{2022} "

  /** `f"• {email}: {error}"`. */
  function FailureLine(f: FailedOp): (line: string)
    ensures Bullet <= line
    ensures |line| == |Bullet| + |f.email| + 2 + |f.error|
    ensures line[|Bullet|..|Bullet| + |f.email|] == f.email
    ensures line[|line| - |f.error|..] == f.error
    ensures '\n' !in f.email && '\n' !in f.error ==> '\n' !in line
  {
    Bullet + f.email + ": " + f.error
  }

  /** The lines of a failure list, one per entry, in order. */
  function FailureLines(failed: seq<FailedOp>): (lines: seq<string>)
    ensures |lines| == |failed|
    ensures forall i :: 0 <= i < |failed| ==> lines[i] == FailureLine(failed[i])
  {
    seq(|failed|, i requires 0 <= i < |failed| => FailureLine(failed[i]))
  }

  /** `format_failed_operations`: "• No failures" for an empty list, otherwise
      the lines of the entries joined by newlines. */
  function FormatFailedOperations(failed: seq<FailedOp>): (text: string)
    ensures failed == [] ==> text == Bullet + "No failures"
    ensures failed != [] ==> FailureLine(failed[0]) <= text
    ensures |failed| == 1 ==> text == FailureLine(failed[0])
  {
    if |failed| == 0 then Bullet + "No failures" else Join(FailureLines(failed), "\n")
  }

  /** Reading the text back line by line gives one line per failure entry, in
      order, when no e-mail or message contains a newline; an empty list gives
      the single line "• No failures". */
  lemma FormatFailedOperationsLines(failed: seq<FailedOp>)
    requires forall f :: f in failed ==> '\n' !in f.email && '\n' !in f.error
    ensures Split(FormatFailedOperations(failed), '\n')
         == if failed == [] then [Bullet + "No failures"] else FailureLines(failed)
  {
    if failed == [] {
      SplitFieldOnly(Bullet + "No failures", '\n');
    } else {
      var lines := FailureLines(failed);
      forall line | line in lines
        ensures '\n' !in line
      {
        var i :| 0 <= i < |lines| && lines[i] == line;
        assert failed[i] in failed;
      }
      SplitJoin(lines, '\n');
    }
  }

  /** The user lists of the summary: `"\n".join([f"• {email}" ...]) or "• None"`. */
  function FormatUserList(users: seq<string>): (text: string)
    ensures users == [] ==> text == Bullet + "None"
    ensures users != [] ==> Bullet + users[0] <= text
    ensures |users| == 1 ==> text == Bullet + users[0]
  {
    var bullets := seq(|users|, i requires 0 <= i < |users| => Bullet + users[i]);
    var joined := Join(bullets, "\n");
    assert users != [] ==> |bullets[0]| > 0 && bullets[0] <= joined;
    if joined == "" then Bullet + "None" else joined
  }

  /** The user list reads back as one bullet per user, in order; only an empty
      list shows "• None". */
  lemma FormatUserListLines(users: seq<string>)
    requires forall u :: u in users ==> '\n' !in u
    ensures users == [] ==> FormatUserList(users) == Bullet + "None"
    ensures users != [] ==> Split(FormatUserList(users), '\n') == seq(|users|, i requires 0 <= i < |users| => Bullet + users[i])
  {
    var bullets := seq(|users|, i requires 0 <= i < |users| => Bullet + users[i]);
    if users != [] {
      forall line | line in bullets
        ensures '\n' !in line
      {
        var i :| 0 <= i < |bullets| && bullets[i] == line;
        assert users[i] in users;
      }
      JoinNonEmpty(bullets, "\n");
      SplitJoin(bullets, '\n');
    }
  }

  /** A join of non-empty lines is not empty. */
  lemma {:induction false} JoinNonEmpty(lines: seq<string>, sep: string)
    requires |lines| > 0 && forall line :: line in lines ==> line != ""
    ensures Join(lines, sep) != ""
  {
    assert lines[0] in lines;
    if |lines| > 1 {
      assert Join(lines, sep) == lines[0] + sep + Join(lines[1..], sep);
    }
  }

  // ---------------------------------------------------------------------
  // The whole run (app.py lines 24-134)
  // ---------------------------------------------------------------------

  /** What a completed run reports: the work lists in the order they were
      processed, the exempted users, the failure lists and the counts. */
  datatype Report = Report(
    toUnassign: seq<string>,
    exempted: seq<string>,
    toAssign: seq<string>,
    failedUnassign: seq<FailedOp>,
    failedAssign: seq<FailedOp>,
    summary: Summary)

  /** The set of e-mails of one day's list. */
  function Roster(schedule: Schedule, dayName: string, todayOrdinal: int): (roster: set<string>)
    ensures forall e :: e in roster <==> e in GetDaySchedule(schedule, Some(dayName), todayOrdinal)
  {
    var emails := GetDaySchedule(schedule, Some(dayName), todayOrdinal);
    set e | e in emails
  }

  /** The three lists of app.py lines 54-68, in the order they are iterated:
      they list the work sets of `Reconcile` each once. The unassign and
      exempted lists come from one iteration of `yesterday - today`. */
  method WorkLists(today: set<string>, yesterday: set<string>, exempt: seq<string>)
    returns (toUnassign: seq<string>, exempted: seq<string>, toAssign: seq<string>)
    ensures Enumerates(toUnassign, Reconcile(today, yesterday, exempt).unassign)
    ensures Enumerates(exempted, Reconcile(today, yesterday, exempt).exempted)
    ensures Enumerates(toAssign, Reconcile(today, yesterday, exempt).assign)
    ensures |toUnassign| == |Reconcile(today, yesterday, exempt).unassign|
    ensures |exempted| == |Reconcile(today, yesterday, exempt).exempted|
    ensures |toAssign| == |Reconcile(today, yesterday, exempt).assign|
  {
    var gone := SetToSeq(yesterday - today);
    toUnassign := NotExempt(gone, exempt);
    exempted := OnlyExempt(gone, exempt);
    FiltersKeepDistinct(gone, exempt);
    toAssign := SetToSeq(today - yesterday);
    var plan := Reconcile(today, yesterday, exempt);
    EnumeratesSize(toUnassign, plan.unassign);
    EnumeratesSize(exempted, plan.exempted);
  }

  /** The two processing loops of app.py lines 74-112: every unassignment,
      then every assignment, each loop collecting its own failures. */
  method RunWork(pool: Actuator, toUnassign: seq<string>, toAssign: seq<string>)
    returns (failedUnassign: seq<FailedOp>, failedAssign: seq<FailedOp>)
    modifies pool
    ensures pool.log == old(pool.log) + RunCalls(toUnassign, toAssign)
    ensures failedUnassign == Failures(Unassign, toUnassign, pool.answer)
    ensures failedAssign == Failures(Assign, toAssign, pool.answer)
  {
    ghost var before := pool.log;
    failedUnassign := ApplyAll(pool, Unassign, toUnassign);
    failedAssign := ApplyAll(pool, Assign, toAssign);
    AppendAssoc(before, Calls(Unassign, toUnassign), Calls(Assign, toAssign));
  }

  /** `manage_licenses`: with no schedule, or an empty one, it stops before any
      call. Otherwise it unassigns the departing non-exempt users, then assigns
      the arriving ones, one call per user, and reports the lists, the failures
      and the counts. */
  method ManageLicenses(pool: Actuator, schedule: Option<Schedule>, todayOrdinal: int, exempt: seq<string>)
    returns (report: Option<Report>)
    modifies pool
    ensures (schedule.None? || schedule.value == map[]) <==> report.None?
    ensures report.None? ==> pool.log == old(pool.log)
    ensures report.Some? ==>
      var info := GetDayInfo(todayOrdinal);
      var plan := Reconcile(Roster(schedule.value, info.today, todayOrdinal),
                            Roster(schedule.value, info.yesterday, todayOrdinal), exempt);
      var r := report.value;
      && Enumerates(r.toUnassign, plan.unassign)
      && Enumerates(r.exempted, plan.exempted)
      && Enumerates(r.toAssign, plan.assign)
      && |r.toUnassign| == |plan.unassign| && |r.exempted| == |plan.exempted| && |r.toAssign| == |plan.assign|
      && r.summary.totalUnassigned == |plan.unassign| && r.summary.totalAssigned == |plan.assign|
      && pool.log == old(pool.log) + RunCalls(r.toUnassign, r.toAssign)
      && r.failedUnassign == Failures(Unassign, r.toUnassign, pool.answer)
      && r.failedAssign == Failures(Assign, r.toAssign, pool.answer)
      && r.summary == Summarize(r.toUnassign, r.failedUnassign, r.toAssign, r.failedAssign)
  {
    var info := GetDayInfo(todayOrdinal);
    if schedule.None? || schedule.value == map[] {
      return None;
    }
    var todayEmails := Roster(schedule.value, info.today, todayOrdinal);
    var yesterdayEmails := Roster(schedule.value, info.yesterday, todayOrdinal);
    var toUnassign, exempted, toAssign := WorkLists(todayEmails, yesterdayEmails, exempt);

    var failedUnassign, failedAssign := RunWork(pool, toUnassign, toAssign);
    var summary := Summarize(toUnassign, failedUnassign, toAssign, failedAssign);
    report := Some(Report(toUnassign, exempted, toAssign, failedUnassign, failedAssign, summary));
  }
}
