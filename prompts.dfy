/** The deterministic parts of the review agents' prompts: the retrieved
    guidelines appended to the system prompt, and the section content
    numbered line by line in the user prompt. The long instruction texts
    are parameters. */
module Prompts {
  import opened Text
  import opened Schemas

  const GuidelinesHeader: string := "\n\n## Reference Guidelines\n\n"
  const ClarityClosing: string :=
    "\n\nUse these guidelines to inform your review and ensure your suggestions align with established best practices."
  const RigorClosing: string :=
    "\n\nUse these guidelines to inform your review and ensure your suggestions align with established best practices for mathematical and experimental rigor."

  /** `get_system_prompt`: the base prompt, followed, when guidelines were
      retrieved, by a header, the guidelines and a closing sentence (each
      agent has its own closing). */
  function SystemPrompt(base: string, guidelines: string, closing: string): (p: string)
    ensures guidelines == "" ==> p == base
    ensures guidelines != "" ==> base <= p && OccursAt(p, GuidelinesHeader + guidelines, |base|)
    ensures guidelines != "" ==> |p| == |base| + |GuidelinesHeader| + |guidelines| + |closing|
  {
    if guidelines == "" then base
    else
      var p := base + GuidelinesHeader + guidelines + closing;
      assert p[|base|..|base| + |GuidelinesHeader + guidelines|] == GuidelinesHeader + guidelines;
      p
  }

  /** The guidelines always appear in the system prompt. */
  lemma SystemPromptHoldsGuidelines(base: string, guidelines: string, closing: string)
    ensures Contains(SystemPrompt(base, guidelines, closing), guidelines)
  {
    var p := SystemPrompt(base, guidelines, closing);
    if guidelines == "" {
      assert OccursAt(p, guidelines, 0);
    } else {
      var at := |base| + |GuidelinesHeader|;
      assert p[at..at + |guidelines|] == (GuidelinesHeader + guidelines)[|GuidelinesHeader|..];
      assert OccursAt(p, guidelines, at);
    }
  }

  /** The rendering of line `n`. */
  function NumberedLine(n: int, line: string): string {
    IntToString(n) + ": " + line
  }

  /** The numbered lines: the i-th line of the content is rendered with
      number `lineStart + i`. */
  function NumberLines(lines: seq<string>, lineStart: int): (r: seq<string>)
    ensures |r| == |lines|
    ensures forall i :: 0 <= i < |lines| ==> r[i] == NumberedLine(lineStart + i, lines[i])
  {
    seq(|lines|, i requires 0 <= i < |lines| => NumberedLine(lineStart + i, lines[i]))
  }

  /** The numbered content of the user prompt. */
  function NumberedContent(content: string, lineStart: int): string {
    Join("\n", NumberLines(Split(content, '\n'), lineStart))
  }

  /** The numbered content has one line per line of the content, as many as
      the content has newlines plus one, and line i is the i-th content line
      behind its number. */
  lemma NumberedContentLines(content: string, lineStart: int)
    ensures |Split(NumberedContent(content, lineStart), '\n')| == CountChar(content, '\n') + 1
    ensures forall i :: 0 <= i < CountChar(content, '\n') + 1 ==>
      Split(NumberedContent(content, lineStart), '\n')[i] == NumberedLine(lineStart + i, Split(content, '\n')[i])
  {
    var lines := Split(content, '\n');
    var numbered := NumberLines(lines, lineStart);
    forall k | 0 <= k < |numbered| ensures '\n' !in numbered[k] {
      IntToStringHasNoNewline(lineStart + k);
      assert numbered[k] == IntToString(lineStart + k) + ": " + lines[k];
    }
    SplitJoin(numbered, '\n');
  }

  lemma IntToStringHasNoNewline(n: int)
    ensures '\n' !in IntToString(n)
  {
    var s := IntToString(n);
    if n < 0 {
      assert s == "-" + NatToString(-n);
      assert forall i :: 1 <= i < |s| ==> IsDigit(s[i]);
    }
  }

  /** The content lines are recovered, in order, by dropping each line's
      number. */
  lemma NumberedContentKeepsLines(content: string, lineStart: int)
    ensures Join("\n", Split(content, '\n')) == content
    ensures forall i :: 0 <= i < |Split(content, '\n')| ==>
      var r := NumberLines(Split(content, '\n'), lineStart)[i];
      r[|r| - |Split(content, '\n')[i]|..] == Split(content, '\n')[i]
  {
    JoinSplit(content, '\n');
  }

  const UserHead: string := "\n        Review the following section for CLARITY issues:\n\n        **Section Title**: "
  const UserTypeLine: string := "\n        **Section Type**: "
  const UserContentLine: string := "\n\n        **Content** (with line numbers):\n        "

  /** `get_user_prompt` of the clarity agent, with the closing instructions
      as a parameter. */
  function UserPrompt(section: Section, instructions: string): string {
    UserHead + section.title + UserTypeLine + section.sectionType + UserContentLine
      + NumberedContent(section.content, section.lineStart) + instructions
  }

  /** The title, the type and the numbered content all appear in the user
      prompt. */
  lemma UserPromptMentionsSection(section: Section, instructions: string)
    ensures Contains(UserPrompt(section, instructions), section.title)
    ensures Contains(UserPrompt(section, instructions), section.sectionType)
    ensures Contains(UserPrompt(section, instructions), NumberedContent(section.content, section.lineStart))
  {
    FieldsOccur(UserHead, section.title, UserTypeLine, section.sectionType, UserContentLine,
                NumberedContent(section.content, section.lineStart), instructions);
  }

  /** Text filled into the second, fourth and sixth slots of a template
      occurs in the result. */
  lemma FieldsOccur(a: string, b: string, c: string, d: string, e: string, f: string, g: string)
    ensures Contains(a + b + c + d + e + f + g, b)
    ensures Contains(a + b + c + d + e + f + g, d)
    ensures Contains(a + b + c + d + e + f + g, f)
  {
    var p := a + b + c + d + e + f + g;
    var i1 := |a|;
    var i2 := i1 + |b| + |c|;
    var i3 := i2 + |d| + |e|;
    assert p[i1..i1 + |b|] == b;
    assert OccursAt(p, b, i1);
    assert p[i2..i2 + |d|] == d;
    assert OccursAt(p, d, i2);
    assert p[i3..i3 + |f|] == f;
    assert OccursAt(p, f, i3);
  }
}
