/** `generatePrompt`: the persona template (the fetched one, or the built-in one when the
    fetch gave nothing) is normalised by three rewrite loops, its three placeholders are
    filled by three more, and the first-person words are replaced by the user's name.

    Every loop has the form `while (p.includes(pat)) p = p.replace(pat, rep)`. The
    normalising loops always shorten the text and so always end; a placeholder loop need
    not end, so each runs here with a bound on its rounds (`fuel`), and running out of
    rounds is reported as `None`. */
module PromptAssembly {
  import opened Wrappers
  import opened Text
  import opened Pronouns

  const CrLf: string := "\r\n"
  const Newline: string := "\n"
  const BlankLine: string := "\n\n"
  /** A backslash followed by the letter n, as two characters. */
  const EscapedNewline: string := "\\n"

  const HistoryToken: string := "{{chat_history}}"
  const UserNameToken: string := "{{user_name}}"
  const QuestionToken: string := "{{question}}"

  /** The outcome of `while (s.includes(pat)) s = s.replace(pat, rep)` when the loop is
      allowed at most `fuel` rounds: `None` when it would need more. */
  function Rewritten(s: string, pat: string, rep: string, fuel: nat): (r: Option<string>)
    ensures !Contains(s, pat) ==> r == Some(s)
    ensures r.Some? ==> !Contains(r.value, pat)
    decreases fuel
  {
    if !Contains(s, pat) then Some(s)
    else if fuel == 0 then None
    else Rewritten(ReplaceFirst(s, pat, rep), pat, rep, fuel - 1)
  }

  /** One rewrite loop, run for at most `fuel` rounds. */
  method ReplaceWhilePresent(s: string, pat: string, rep: string, fuel: nat) returns (r: Option<string>)
    ensures r == Rewritten(s, pat, rep, fuel)
  {
    var p := s;
    var rounds := 0;
    while Contains(p, pat)
      invariant rounds <= fuel
      invariant Rewritten(p, pat, rep, fuel - rounds) == Rewritten(s, pat, rep, fuel)
      decreases fuel - rounds
    {
      if rounds == fuel {
        return None;
      }
      p := ReplaceFirst(p, pat, rep);
      rounds := rounds + 1;
    }
    return Some(p);
  }

  /** A loop whose every round lowers a natural-number measure of the text ends within
      as many rounds as the measure of the text it starts from. */
  lemma {:induction false} MeasureFinishes(s: string, pat: string, rep: string, m: string -> nat, fuel: nat)
    requires forall x :: Contains(x, pat) ==> m(ReplaceFirst(x, pat, rep)) < m(x)
    requires fuel >= m(s)
    ensures Rewritten(s, pat, rep, fuel).Some?
    decreases fuel
  {
    if Contains(s, pat) {
      MeasureFinishes(ReplaceFirst(s, pat, rep), pat, rep, m, fuel - 1);
    }
  }

  /** When the replacement holds fewer copies of a character `c` than the pattern, every
      round removes at least one `c`, so the loop ends within as many rounds as the text
      holds `c`s. */
  lemma FewerCharsFinish(s: string, pat: string, rep: string, c: char, fuel: nat)
    requires CountChar(c, rep) < CountChar(c, pat)
    requires fuel >= CountChar(c, s)
    ensures Rewritten(s, pat, rep, fuel).Some?
  {
    forall x | Contains(x, pat) ensures CountChar(c, ReplaceFirst(x, pat, rep)) < CountChar(c, x) {
      ReplaceFirstCounts(x, pat, rep, c);
    }
    MeasureFinishes(s, pat, rep, x => CountChar(c, x), fuel);
  }

  /** A loop whose rounds never raise a natural-number measure of the text ends, if it
      ends, with a measure no larger than the one it started from. */
  lemma {:induction false} MeasureNeverGrows(s: string, pat: string, rep: string, m: string -> nat, fuel: nat)
    requires forall x :: Contains(x, pat) ==> m(ReplaceFirst(x, pat, rep)) <= m(x)
    requires Rewritten(s, pat, rep, fuel).Some?
    ensures m(Rewritten(s, pat, rep, fuel).value) <= m(s)
    decreases fuel
  {
    if Contains(s, pat) {
      MeasureNeverGrows(ReplaceFirst(s, pat, rep), pat, rep, m, fuel - 1);
    }
  }

  /** A loop whose replacement holds no more copies of `c` than its pattern never adds a `c`. */
  lemma RewrittenKeepsCount(s: string, pat: string, rep: string, c: char, fuel: nat)
    requires CountChar(c, rep) <= CountChar(c, pat)
    requires Rewritten(s, pat, rep, fuel).Some?
    ensures CountChar(c, Rewritten(s, pat, rep, fuel).value) <= CountChar(c, s)
  {
    forall x | Contains(x, pat) ensures CountChar(c, ReplaceFirst(x, pat, rep)) <= CountChar(c, x) {
      ReplaceFirstCounts(x, pat, rep, c);
    }
    MeasureNeverGrows(s, pat, rep, x => CountChar(c, x), fuel);
  }

  /** A replacement that itself contains the pattern puts the pattern back at every round:
      once the pattern occurs, the loop never ends, whatever the bound. */
  lemma {:induction false} TokenInValueNeverFinishes(s: string, pat: string, rep: string, fuel: nat)
    requires Contains(s, pat)
    requires Contains(rep, pat)
    ensures Rewritten(s, pat, rep, fuel) == None
    decreases fuel
  {
    if fuel > 0 {
      var i := ReplaceFirstShape(s, pat, rep);
      ContainsInfix(s[..i], rep, s[i + |pat|..], pat);
      TokenInValueNeverFinishes(ReplaceFirst(s, pat, rep), pat, rep, fuel - 1);
    }
  }

  /** The bound only decides whether the loop is seen to end, never what it ends with. */
  lemma {:induction false} MoreFuelSameResult(s: string, pat: string, rep: string, f: nat, g: nat)
    requires f <= g
    requires Rewritten(s, pat, rep, f).Some?
    ensures Rewritten(s, pat, rep, g) == Rewritten(s, pat, rep, f)
    decreases f
  {
    if Contains(s, pat) {
      MoreFuelSameResult(ReplaceFirst(s, pat, rep), pat, rep, f - 1, g - 1);
    }
  }

  /** A normalising loop, whose replacement is shorter than its pattern: every round
      shortens the text, so the loop always ends, with no occurrence left. */
  function Collapse(s: string, pat: string, rep: string): (r: string)
    requires |rep| < |pat|
    ensures !Contains(r, pat)
    ensures |r| <= |s|
    decreases |s|
  {
    if Contains(s, pat) then
      ReplaceFirstLength(s, pat, rep);
      Collapse(ReplaceFirst(s, pat, rep), pat, rep)
    else s
  }

  /** A measure that no round of a normalising loop increases is no larger at its end. */
  lemma {:induction false} CollapseNeverGrows(s: string, pat: string, rep: string, m: string -> nat)
    requires |rep| < |pat|
    requires forall x :: Contains(x, pat) ==> m(ReplaceFirst(x, pat, rep)) <= m(x)
    ensures m(Collapse(s, pat, rep)) <= m(s)
    decreases |s|
  {
    if Contains(s, pat) {
      ReplaceFirstLength(s, pat, rep);
      CollapseNeverGrows(ReplaceFirst(s, pat, rep), pat, rep, m);
    }
  }

  /** A normalising loop whose replacement holds no more `c`s than its pattern never adds
      a `c`. */
  lemma CollapseKeepsCount(s: string, pat: string, rep: string, c: char)
    requires |rep| < |pat|
    requires CountChar(c, rep) <= CountChar(c, pat)
    ensures CountChar(c, Collapse(s, pat, rep)) <= CountChar(c, s)
  {
    forall x | Contains(x, pat) ensures CountChar(c, ReplaceFirst(x, pat, rep)) <= CountChar(c, x) {
      ReplaceFirstCounts(x, pat, rep, c);
    }
    CollapseNeverGrows(s, pat, rep, x => CountChar(c, x));
  }

  /** The three normalising loops in order: Windows line ends become `\n`, runs of blank
      lines shrink to single line ends, and each two-character `\n` escape becomes a line end. */
  function Normalised(s: string): (r: string)
    ensures !Contains(r, EscapedNewline)
    ensures |r| <= |s|
  {
    Collapse(Collapse(Collapse(s, CrLf, Newline), BlankLine, Newline), EscapedNewline, Newline)
  }

  /** The third loop can join line ends into a blank line again: the finished text is
      free of escapes, not of blank lines. */
  lemma NormalisedMayEndWithBlankLine()
    ensures Normalised("\n\\n") == BlankLine
    ensures Contains(Normalised("\n\\n"), BlankLine)
  {
    var s := "\n\\n";
    assert s[0] == '\n' && s[1] == '\\' && s[2] == 'n' && |s| == 3;
    assert !Contains(s, CrLf) by {
      assert s[..2][0] != CrLf[0];
      assert s[1..][..2][0] != CrLf[0];
      assert |s[1..][1..]| < 2;
    }
    assert Collapse(s, CrLf, Newline) == s;
    assert !Contains(s, BlankLine) by {
      assert s[..2][1] != BlankLine[1];
      assert s[1..][..2][0] != BlankLine[0];
      assert |s[1..][1..]| < 2;
    }
    assert Collapse(s, BlankLine, Newline) == s;
    assert IndexOf(s, EscapedNewline) == Some(1) by {
      assert s[..2][0] != EscapedNewline[0];
      assert s[1..][..2] == EscapedNewline;
    }
    assert ReplaceFirst(s, EscapedNewline, Newline) == BlankLine;
    assert !Contains(BlankLine, EscapedNewline) by {
      assert BlankLine[..2][0] != EscapedNewline[0];
      assert BlankLine[1..][..1] == "\n";
    }
    assert Rewritten(BlankLine, EscapedNewline, Newline, 2) == Some(BlankLine);
    assert Rewritten(s, EscapedNewline, Newline, 3) == Some(BlankLine);
    assert BlankLine[..2] == BlankLine;
  }

  /** Text free of all three patterns passes the normalisation unchanged. */
  lemma NormalisedKeepsPlainText(s: string)
    requires !Contains(s, CrLf) && !Contains(s, BlankLine) && !Contains(s, EscapedNewline)
    ensures Normalised(s) == s
  {
  }

  /** The normalisation rewrites only line ends and backslashes, so it never adds a `{`. */
  lemma NormalisedKeepsBraces(s: string)
    ensures CountChar('{', Normalised(s)) <= CountChar('{', s)
  {
    BraceFree();
    var a := Collapse(s, CrLf, Newline);
    CollapseKeepsCount(s, CrLf, Newline, '{');
    var b := Collapse(a, BlankLine, Newline);
    CollapseKeepsCount(a, BlankLine, Newline, '{');
    CollapseKeepsCount(b, EscapedNewline, Newline, '{');
  }

  lemma BraceFree()
    ensures CountChar('{', Newline) == 0 && CountChar('{', CrLf) == 0
    ensures CountChar('{', BlankLine) == 0 && CountChar('{', EscapedNewline) == 0
  {
  }

  /** The built-in template, with the user name, the question and the history (joined by
      line ends) interpolated. */
  function StaticPrompt(userName: string, question: string, history: seq<string>): string {
    UserNameLabel + userName + "\"\n"
    + "* User query: \"this is" + question + "\"\n"
    + "* Conversation history: \n```" + Join(history, '\n') + "```\n"
    + "\n"
    + RoleIntro + userName + RoleOutro + userName + Closing
  }

  const RoleIntro: string :=
    "Your role:\n"
    + "Your name is Stoa, and you are a wise, personal personality trainer and stoic muse. who talks philosophically.\n"
    + "Your responses must consider the user's personality type and other traits outlined in the \""
  const RoleOutro: string :=
    "\" variable to provide personalized answers to the user's questions.\n"
    + "You must craft each response from the lens of the user's unique personality type while maintaining a philosophical (stoic) tone, providing insight and guidance in a concise, practical, and non-preachy way.\n"
    + "\n"
    + "Behavior:\n"
    + "Before responding, analyze what specific information from the personality profile is most important for giving a well-informed answer.\n"
    + "Ask the user for clarification when necessary to fully understand their question or context.\n"
    + "Provide a detailed response based on the user's profile without pulling in any other user's data.\n"
    + "\n"
    + "Tone:\n"
    + "Stick to Stoic principles, emphasizing logic, control, self-discipline, and calmness. Avoid being overly formal or preachy, keeping responses compact and focused.\n"
    + "Exclude phrases such as \"based on the information provided\" or \"Ah, "
  const UserNameLabel: string := "* User name: \""
  const Closing: string := "\"."

  /** `prompt || staticPrompt`: an empty fetched prompt falls back to the built-in one. */
  function Template(fetched: string, userName: string, question: string, history: seq<string>): string {
    if fetched != "" then fetched else StaticPrompt(userName, question, history)
  }

  /** Three placeholder loops run one after another, each on the previous one's result,
      or `None` as soon as one of them needs more than `fuel` rounds. */
  function FillThree(s: string, t1: string, v1: string, t2: string, v2: string, t3: string, v3: string,
                     fuel: nat): (r: Option<string>)
    ensures r.Some? ==> !Contains(r.value, t3)
  {
    match Rewritten(s, t1, v1, fuel)
    case None => None
    case Some(a) =>
      match Rewritten(a, t2, v2, fuel)
      case None => None
      case Some(b) => Rewritten(b, t3, v3, fuel)
  }

  /** The three placeholder loops of `generatePrompt`, in order. */
  function Filled(s: string, history: seq<string>, question: string, userName: string, fuel: nat)
    : (r: Option<string>)
    ensures r.Some? ==> !Contains(r.value, QuestionToken)
  {
    FillThree(s, HistoryToken, Join(history, '\n'), UserNameToken, userName, QuestionToken, question, fuel)
  }

  /** What `generatePrompt` makes of a template: the normalisation, the placeholders and
      the pronoun rewrite, or `None` when a placeholder loop needs more than `fuel` rounds. */
  function Prepared(template: string, history: seq<string>, question: string, userName: string, fuel: nat)
    : Option<string>
  {
    match Filled(Normalised(template), history, question, userName, fuel)
    case None => None
    case Some(c) => Some(ReplacePronouns(c, userName))
  }

  /** `generatePrompt` once the prompt service has answered `fetched`. */
  function Generated(fetched: string, history: seq<string>, question: string, userName: string, fuel: nat)
    : Option<string>
  {
    Prepared(Template(fetched, userName, question, history), history, question, userName, fuel)
  }

  /** An empty fetched prompt gives the built-in template, which is never empty; any other
      fetched prompt is used as it is. */
  lemma TemplateChoice(fetched: string, history: seq<string>, question: string, userName: string)
    ensures Template("", userName, question, history) == StaticPrompt(userName, question, history) != ""
    ensures fetched != "" ==> Template(fetched, userName, question, history) == fetched
  {
    assert |UserNameLabel| == 14;
  }

  /** A fetched template free of line-end patterns and placeholders reaches the model with
      only its first-person words replaced. */
  lemma PlainTemplateOnlyLosesPronouns(template: string, history: seq<string>, question: string,
                                       userName: string, fuel: nat)
    requires !Contains(template, CrLf) && !Contains(template, BlankLine) && !Contains(template, EscapedNewline)
    requires !Contains(template, HistoryToken) && !Contains(template, UserNameToken)
    requires !Contains(template, QuestionToken)
    ensures Prepared(template, history, question, userName, fuel) == Some(ReplacePronouns(template, userName))
  {
    NormalisedKeepsPlainText(template);
  }

  /** When the template still holds `{{chat_history}}` after normalisation and a history
      message holds it too, the first placeholder loop never ends. */
  lemma HistoryTokenInHistoryHangs(template: string, history: seq<string>, question: string,
                                   userName: string, fuel: nat)
    requires Contains(Normalised(template), HistoryToken)
    requires Contains(Join(history, '\n'), HistoryToken)
    ensures Prepared(template, history, question, userName, fuel) == None
  {
    TokenInValueNeverFinishes(Normalised(template), HistoryToken, Join(history, '\n'), fuel);
  }

  /** A text that opens with two copies of `c` holds at least two. */
  lemma LeadingPair(c: char, s: string)
    requires |s| >= 2 && s[0] == c && s[1] == c
    ensures CountChar(c, s) >= 2
  {
    assert s[1..][0] == c;
  }

  /** Every placeholder opens with `{{`. */
  lemma TokenBraces()
    ensures CountChar('{', HistoryToken) >= 2
    ensures CountChar('{', UserNameToken) >= 2
    ensures CountChar('{', QuestionToken) >= 2
  {
    LeadingPair('{', HistoryToken);
    LeadingPair('{', UserNameToken);
    LeadingPair('{', QuestionToken);
  }

  /** A placeholder loop whose value has at most one `{` ends within as many rounds as the
      text has `{`s, and leaves no more `{`s than it found. */
  lemma PlaceholderLoopFinishes(s: string, token: string, value: string, fuel: nat)
    requires CountChar('{', token) >= 2
    requires CountChar('{', value) < 2
    requires fuel >= CountChar('{', s)
    ensures Rewritten(s, token, value, fuel).Some?
    ensures CountChar('{', Rewritten(s, token, value, fuel).value) <= CountChar('{', s)
  {
    FewerCharsFinish(s, token, value, '{', fuel);
    RewrittenKeepsCount(s, token, value, '{', fuel);
  }

  /** Values with at most one `{` each cannot rebuild a placeholder, so every placeholder
      loop ends, given as many rounds as the template has `{`s. */
  lemma BraceBoundedValuesFinish(template: string, history: seq<string>, question: string,
                                 userName: string, fuel: nat)
    requires CountChar('{', Join(history, '\n')) < 2
    requires CountChar('{', userName) < 2
    requires CountChar('{', question) < 2
    requires fuel >= CountChar('{', template)
    ensures Prepared(template, history, question, userName, fuel).Some?
  {
    NormalisedKeepsBraces(template);
    PlaceholdersFinish(Normalised(template), history, question, userName, fuel);
  }

  /** The three placeholder loops end when the values have at most one `{` each. */
  lemma PlaceholdersFinish(s: string, history: seq<string>, question: string, userName: string, fuel: nat)
    requires CountChar('{', Join(history, '\n')) < 2
    requires CountChar('{', userName) < 2
    requires CountChar('{', question) < 2
    requires fuel >= CountChar('{', s)
    ensures Filled(s, history, question, userName, fuel).Some?
  {
    TokenBraces();
    FillThreeFinishes(s, HistoryToken, Join(history, '\n'), UserNameToken, userName, QuestionToken, question, fuel);
  }

  /** Loops whose tokens hold at least two `{` and whose values hold at most one all end,
      given as many rounds as the text has `{`s. */
  lemma FillThreeFinishes(s: string, t1: string, v1: string, t2: string, v2: string, t3: string, v3: string,
                          fuel: nat)
    requires CountChar('{', t1) >= 2 > CountChar('{', v1)
    requires CountChar('{', t2) >= 2 > CountChar('{', v2)
    requires CountChar('{', t3) >= 2 > CountChar('{', v3)
    requires fuel >= CountChar('{', s)
    ensures FillThree(s, t1, v1, t2, v2, t3, v3, fuel).Some?
  {
    PlaceholderLoopFinishes(s, t1, v1, fuel);
    var a := Rewritten(s, t1, v1, fuel).value;
    PlaceholderLoopFinishes(a, t2, v2, fuel);
    var b := Rewritten(a, t2, v2, fuel).value;
    PlaceholderLoopFinishes(b, t3, v3, fuel);
  }

  /** One normalising loop. The text shortens at every round, which is what ends it. */
  method CollapseLoop(s: string, pat: string, rep: string) returns (r: string)
    requires |rep| < |pat|
    ensures r == Collapse(s, pat, rep)
  {
    r := s;
    while Contains(r, pat)
      invariant Collapse(r, pat, rep) == Collapse(s, pat, rep)
      decreases |r|
    {
      ReplaceFirstLength(r, pat, rep);
      r := ReplaceFirst(r, pat, rep);
    }
  }

  /** The three placeholder loops. */
  method FillPlaceholders(s: string, history: seq<string>, question: string, userName: string, fuel: nat)
    returns (r: Option<string>)
    ensures r == Filled(s, history, question, userName, fuel)
  {
    r := ReplaceWhilePresent(s, HistoryToken, Join(history, '\n'), fuel);
    if r.Some? {
      r := ReplaceWhilePresent(r.value, UserNameToken, userName, fuel);
      if r.Some? {
        r := ReplaceWhilePresent(r.value, QuestionToken, question, fuel);
      }
    }
  }

  /** `generatePrompt` after the fetch: the template, the six loops and the pronoun rewrite. */
  method BuildPrompt(fetched: string, history: seq<string>, question: string, userName: string, fuel: nat)
    returns (r: Option<string>)
    ensures r == Generated(fetched, history, question, userName, fuel)
  {
    var p := Template(fetched, userName, question, history);
    p := CollapseLoop(p, CrLf, Newline);
    p := CollapseLoop(p, BlankLine, Newline);
    p := CollapseLoop(p, EscapedNewline, Newline);
    r := FillPlaceholders(p, history, question, userName, fuel);
    if r.Some? {
      r := Some(ReplacePronouns(r.value, userName));
    }
  }
}
