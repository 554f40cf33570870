/** Workflow definitions (packages/automation/src/definition.ts) and the template
    variable check of packages/automation/src/template.ts. */
module Definition {
  import opened Wrappers
  import opened Topology
  import CronMeaning
  import CronParser
  import CronSchedule
  import CronSearch

  const MAX_NODES := 24
  const MAX_EDGES := 48
  const MAX_DELAY_MINUTES := 43_200

  datatype Kind = Trigger | Condition | Delay | SendEmail | SendSms | TagCustomer | CreateDiscount

  datatype TriggerConfig = Manual | Schedule(cron: string) | Event(topic: string)

  datatype Config =
    | TriggerWith(trigger: TriggerConfig)
    | ConditionOn(field: string, operator: string, value: string)
    | DelayFor(minutes: int)
    | Email(subject: string, bodyText: string, bodyHtml: Option<string>)
    | Sms(smsBody: string)
    | Tag(tag: string)
    | Discount(code: string, percentOff: int, expiresInDays: int)

  datatype Node = Node(id: string, kind: Kind, config: Config)
  datatype Branch = Yes | No
  datatype Edge = Edge(from: string, to: string, branch: Option<Branch>)
  datatype Workflow = Workflow(nodes: seq<Node>, edges: seq<Edge>)

  predicate IsLowerOrDigit(c: char) {
    'a' <= c <= 'z' || '0' <= c <= '9'
  }

  predicate ValidId(id: string) {
    1 <= |id| <= 80 && IsLowerOrDigit(id[0]) && forall c :: c in id ==> IsLowerOrDigit(c) || c == '-'
  }

  /** The config parses against the schema of its kind; topics, fields and operators are members of
      closed lists and are taken as given. */
  predicate ConfigParses(n: Node) {
    match n.config
    case TriggerWith(t) => n.kind == Trigger && (t.Schedule? ==> 9 <= |t.cron| <= 64)
    case ConditionOn(_, _, value) => n.kind == Condition && |value| <= 200
    case DelayFor(minutes) => n.kind == Delay && 1 <= minutes <= MAX_DELAY_MINUTES
    case Email(subject, text, html) =>
      n.kind == SendEmail && 1 <= |subject| <= 200 && 1 <= |text| <= 5_000 && (html.Some? ==> |html.value| <= 20_000)
    case Sms(body) => n.kind == SendSms && 1 <= |body| <= 1_000
    case Tag(tag) => n.kind == TagCustomer && 1 <= |tag| <= 40 && ',' !in tag
    case Discount(code, percent, days) =>
      n.kind == CreateDiscount && 4 <= |code| <= 32
      && (forall c :: c in code ==> 'A' <= c <= 'Z' || '0' <= c <= '9' || c == '-')
      && 1 <= percent <= 50 && 1 <= days <= 60
  }

  predicate ShapeParses(w: Workflow) {
    && 1 <= |w.nodes| <= MAX_NODES && |w.edges| <= MAX_EDGES
    && (forall n :: n in w.nodes ==> ValidId(n.id))
    && forall e :: e in w.edges ==> ValidId(e.from) && ValidId(e.to)
  }

  function IdsOf(w: Workflow): (r: seq<string>)
    ensures |r| == |w.nodes| && forall i :: 0 <= i < |r| ==> r[i] == w.nodes[i].id
  {
    seq(|w.nodes|, i requires 0 <= i < |w.nodes| => w.nodes[i].id)
  }

  function ArcsOf(edges: seq<Edge>): (r: seq<Arc>)
    ensures |r| == |edges| && forall i :: 0 <= i < |r| ==> r[i] == Arc(edges[i].from, edges[i].to)
  {
    seq(|edges|, i requires 0 <= i < |edges| => Arc(edges[i].from, edges[i].to))
  }

  function GraphOf(w: Workflow): Graph {
    Graph(IdsOf(w), ArcsOf(w.edges))
  }

  lemma ArcOfEdge(w: Workflow, u: string, v: string)
    ensures Arc(u, v) in GraphOf(w).arcs <==> exists e :: e in w.edges && e.from == u && e.to == v
  {
    if Arc(u, v) in GraphOf(w).arcs {
      var i :| 0 <= i < |w.edges| && ArcsOf(w.edges)[i] == Arc(u, v);
      assert w.edges[i] in w.edges;
    }
    if e :| e in w.edges && e.from == u && e.to == v {
      var i :| 0 <= i < |w.edges| && w.edges[i] == e;
      assert ArcsOf(w.edges)[i] == Arc(u, v);
    }
  }

  lemma IdOfNode(w: Workflow, v: string)
    ensures v in IdsOf(w) <==> exists n :: n in w.nodes && n.id == v
  {
    if v in IdsOf(w) {
      var i :| 0 <= i < |w.nodes| && IdsOf(w)[i] == v;
      assert w.nodes[i] in w.nodes;
    }
    if n :| n in w.nodes && n.id == v {
      var i :| 0 <= i < |w.nodes| && w.nodes[i] == n;
      assert IdsOf(w)[i] == v;
    }
  }

  // ---- template variables ----

  const VARIABLES: set<string> := {
    "store.name", "store.domain", "customer.firstName", "customer.lastName", "customer.fullName", "customer.email",
    "customer.ordersCount", "customer.totalSpent", "campaign.name", "workflow.name", "unsubscribeUrl"
  }

  predicate IsLetter(c: char) {
    'a' <= c <= 'z' || 'A' <= c <= 'Z'
  }

  function SkipSpaces(s: string): string {
    if s != [] && CronParser.IsSpace(s[0]) then SkipSpaces(s[1..]) else s
  }

  function PathLength(s: string): (n: nat)
    ensures n <= |s|
  {
    if s != [] && (IsLetter(s[0]) || '0' <= s[0] <= '9' || s[0] == '.') then 1 + PathLength(s[1..]) else 0
  }

  /** The variable path of a `{{ path }}` placeholder that s starts with. */
  function PlaceholderAt(s: string): Option<string> {
    if |s| < 2 || s[..2] != "{{" then None
    else
      var body := SkipSpaces(s[2..]);
      if body == [] || !IsLetter(body[0]) then None
      else
        var path := body[..PathLength(body)];
        if "}}" <= SkipSpaces(body[PathLength(body)..]) then Some(path) else None
  }

  /** No placeholder anywhere in s names a variable outside the catalog. */
  predicate TemplateOk(s: string) {
    forall i :: 0 <= i < |s| ==>
      var p := PlaceholderAt(s[i..]);
      p.Some? ==> p.value in VARIABLES
  }

  predicate ConfigMeaningful(n: Node) {
    match n.config
    case Email(subject, text, html) =>
      TemplateOk(subject) && TemplateOk(text) && (html.Some? ==> TemplateOk(html.value))
    case Sms(body) => TemplateOk(body)
    case TriggerWith(Schedule(cron)) => CronParser.ScheduleOf(cron).Some?
    case _ => true
  }

  /** computeNextFire of workflow.service.ts: null for a trigger of another kind and for an expression
      that does not parse or never fires, otherwise the next firing minute. */
  method ComputeNextFire(trigger: TriggerConfig, now: nat) returns (r: Option<nat>)
    ensures r.Some? <==>
            trigger.Schedule? && CronParser.ScheduleOf(trigger.cron).Some?
            && !CronSchedule.NeverFires(CronParser.ScheduleOf(trigger.cron).value)
    ensures r.Some? <==>
            trigger.Schedule? && CronParser.ScheduleOf(trigger.cron).Some?
            && !CronMeaning.Impossible(CronParser.ScheduleOf(trigger.cron).value)
    ensures r.Some? ==> CronSchedule.IsNextAfter(CronParser.ScheduleOf(trigger.cron).value, now, r.value)
  {
    if !trigger.Schedule? {
      return None;
    }
    var s := CronParser.ParseCron(trigger.cron);
    if s.None? {
      return None;
    }
    CronMeaning.NeverFiresIff(s.value);
    r := CronSearch.NextOccurrence(s.value, now);
  }
}
