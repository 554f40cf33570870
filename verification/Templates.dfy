/** What the content checks of a workflow definition accept: the placeholders of its texts, and which
    nodes carry texts (packages/automation/src/dag.ts and packages/automation/src/template.ts). */
module Templates {
  import opened Wrappers
  import opened Definition
  import CronParser

  predicate IsPathChar(c: char) {
    'a' <= c <= 'z' || 'A' <= c <= 'Z' || '0' <= c <= '9' || c == '.'
  }

  predicate IsName(name: string) {
    name != "" && ('a' <= name[0] <= 'z' || 'A' <= name[0] <= 'Z') && forall c :: c in name ==> IsPathChar(c)
  }

  predicate Blank(s: string) {
    forall c :: c in s ==> CronParser.IsSpace(c)
  }

  /** s starts with the placeholder of this variable, spaces allowed on both sides of the name. */
  ghost predicate Reads(s: string, name: string) {
    exists a, b, rest :: IsPlaceholder(s, a, name, b, rest)
  }

  predicate IsPlaceholder(s: string, a: string, name: string, b: string, rest: string) {
    s == "{{" + (a + (name + (b + ("}}" + rest)))) && Blank(a) && IsName(name) && Blank(b)
  }

  lemma {:induction false} SkipBlank(a: string, rest: string)
    requires Blank(a) && (rest == "" || !CronParser.IsSpace(rest[0]))
    ensures SkipSpaces(a + rest) == rest
  {
    hide CronParser.IsSpace;
    var s := a + rest;
    if a == "" {
      assert s == rest;
    } else {
      assert s[0] == a[0] && s[0] in a && s[1..] == a[1..] + rest;
      SkipBlank(a[1..], rest);
    }
  }

  lemma {:induction false} SkippedBlank(s: string) returns (a: string)
    ensures Blank(a) && s == a + SkipSpaces(s)
    ensures SkipSpaces(s) == "" || !CronParser.IsSpace(SkipSpaces(s)[0])
  {
    hide CronParser.IsSpace;
    if s != "" && CronParser.IsSpace(s[0]) {
      var rest := SkippedBlank(s[1..]);
      a := [s[0]] + rest;
      assert s == [s[0]] + s[1..];
    } else {
      a := "";
    }
  }

  lemma {:induction false} PathOf(name: string, rest: string)
    requires (forall c :: c in name ==> IsPathChar(c)) && (rest == "" || !IsPathChar(rest[0]))
    ensures PathLength(name + rest) == |name|
  {
    var s := name + rest;
    if name == "" {
      assert s == rest;
    } else {
      assert s[0] == name[0] && s[0] in name && s[1..] == name[1..] + rest;
      PathOf(name[1..], rest);
    }
  }

  lemma {:induction false} PathIsName(s: string)
    ensures forall c :: c in s[..PathLength(s)] ==> IsPathChar(c)
  {
    if s != "" {
      PathIsName(s[1..]);
      if PathLength(s) > 0 {
        assert s[..PathLength(s)] == [s[0]] + s[1..][..PathLength(s) - 1];
      }
    }
  }

  lemma SpaceIsNoPathChar(c: char)
    requires CronParser.IsSpace(c)
    ensures !IsPathChar(c) && c != '}'
  {
  }

  /** The scanner reads a placeholder exactly where one is written. */
  lemma PlaceholderIff(s: string, name: string)
    ensures PlaceholderAt(s) == Some(name) <==> Reads(s, name)
  {
    if PlaceholderAt(s) == Some(name) {
      PlaceholderWritten(s, name);
    }
    if Reads(s, name) {
      var a, b, rest :| IsPlaceholder(s, a, name, b, rest);
      PlaceholderRead(s, a, name, b, rest);
    }
  }

  lemma PlaceholderRead(s: string, a: string, name: string, b: string, rest: string)
    requires IsPlaceholder(s, a, name, b, rest)
    ensures PlaceholderAt(s) == Some(name)
  {
    var tail := b + ("}}" + rest);
    var body := name + tail;
    assert s[..2] == "{{" && s[2..] == a + body;
    assert !CronParser.IsSpace(name[0]) && name[0] in name;
    SkipBlank(a, body);
    if b != "" {
      assert b[0] in b;
      SpaceIsNoPathChar(b[0]);
    }
    PathOf(name, tail);
    assert body[..|name|] == name && body[|name|..] == tail;
    SkipBlank(b, "}}" + rest);
  }

  lemma PlaceholderWritten(s: string, name: string)
    requires PlaceholderAt(s) == Some(name)
    ensures Reads(s, name)
  {
    var a := SkippedBlank(s[2..]);
    var body := SkipSpaces(s[2..]);
    PathIsName(body);
    var n := PathLength(body);
    var b := SkippedBlank(body[n..]);
    var tail := SkipSpaces(body[n..]);
    assert tail == "}}" + tail[2..];
    assert body == name + body[n..];
    assert name[0] in name;
    assert s == "{{" + s[2..];
    assert IsPlaceholder(s, a, name, b, tail[2..]);
  }

  ghost predicate OnlyKnown(t: string) {
    forall i, name :: 0 <= i < |t| && Reads(t[i..], name) ==> name in VARIABLES
  }

  lemma TemplateOkIff(t: string)
    ensures TemplateOk(t) <==> OnlyKnown(t)
  {
    hide PlaceholderAt, Reads;
    forall i, name | 0 <= i < |t|
      ensures PlaceholderAt(t[i..]) == Some(name) <==> Reads(t[i..], name)
    {
      PlaceholderIff(t[i..], name);
    }
    if TemplateOk(t) {
      forall i, name | 0 <= i < |t| && Reads(t[i..], name)
        ensures name in VARIABLES
      {
        assert PlaceholderAt(t[i..]) == Some(name);
      }
    }
    if OnlyKnown(t) {
      forall i | 0 <= i < |t| && PlaceholderAt(t[i..]).Some?
        ensures PlaceholderAt(t[i..]).value in VARIABLES
      {
        var name := PlaceholderAt(t[i..]).value;
        assert PlaceholderAt(t[i..]) == Some(name) && Reads(t[i..], name);
      }
    }
  }

  /** The texts of a node that are rendered for a customer. */
  function Texts(c: Config): set<string> {
    if c.Email? then {c.subject, c.bodyText} + (if c.bodyHtml.Some? then {c.bodyHtml.value} else {})
    else if c.Sms? then {c.smsBody}
    else {}
  }

  /** A node's content is accepted if and only if every placeholder written anywhere in its texts names a
      known variable and the expression of a schedule trigger parses. */
  lemma ContentIff(n: Node)
    ensures ConfigMeaningful(n) <==>
            && (forall t :: t in Texts(n.config) ==> OnlyKnown(t))
            && (n.config.TriggerWith? && n.config.trigger.Schedule? ==>
                  CronParser.ScheduleOf(n.config.trigger.cron).Some?)
  {
    hide TemplateOk, OnlyKnown, CronParser.ScheduleOf;
    forall t
      ensures TemplateOk(t) <==> OnlyKnown(t)
    {
      TemplateOkIff(t);
    }
  }

  /** A node that parses carries the configuration of its own kind. */
  lemma KindsFit(n: Node)
    requires ConfigParses(n)
    ensures n.kind == Trigger <==> n.config.TriggerWith?
    ensures n.kind == Condition <==> n.config.ConditionOn?
    ensures n.kind == Delay <==> n.config.DelayFor?
    ensures n.kind == SendEmail <==> n.config.Email?
    ensures n.kind == SendSms <==> n.config.Sms?
    ensures n.kind == TagCustomer <==> n.config.Tag?
    ensures n.kind == CreateDiscount <==> n.config.Discount?
  {
  }
}
