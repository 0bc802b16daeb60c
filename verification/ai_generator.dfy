/** The assistant that turns a free-text goal into new orders: the mapping
    from the suggestions the language model returns to fresh orders in the
    Entry column. The model call is a parameter (`Remote`), and so are the
    clock and the random draws each new order consumes. */
module AIGenerator {
  import opened Common
  import opened Text
  import opened Orders
  import opened Constants
  import Card

  /** One suggestion of the model. An absent or empty priority and absent
      tags are fallbacks of the mapping. */
  datatype Suggestion = Suggestion(title: string, description: string,
                                   priority: Option<string>, tags: Option<seq<string>>)

  /** The clock reads and the random draw spent on the `index`-th suggestion:
      the time in its id, the draw in its order number (a value below 10000,
      the floor of a random number times 10000) and the time it is created at. */
  datatype Draw = Draw(idMillis: nat, osDraw: nat, createdMillis: nat)

  predicate ValidDraws(draws: seq<Draw>, n: nat) {
    |draws| >= n && forall i :: 0 <= i < |draws| ==> draws[i].osDraw < 10000
  }

  /** A blank goal makes no call; a failed call yields nothing (an alert is
      shown); a reply yields one order per suggestion. */
  datatype Generation = NoCall | GenerationFailed | Generated(tasks: seq<Task>)

  /** `t.priority as Priority || Priority.Medium`: the cast keeps any
      non-empty string. */
  function SuggestedPriority(p: Option<string>): (r: Priority)
    ensures p.None? || p == Some("") ==> r == Medium
    ensures p.Some? && p.value != "" ==> PriorityName(r) == p.value
  {
    if p.Some? && p.value != "" then ParsePriority(p.value) else Medium
  }

  function GeneratedId(millis: nat, index: nat): string {
    "gen-" + Decimal(millis) + "-" + Decimal(index)
  }

  /** The order made from the `index`-th suggestion. */
  function FromSuggestion(s: Suggestion, index: nat, r: Draw): (t: Task)
    requires r.osDraw < 10000
    ensures t.id == GeneratedId(r.idMillis, index)
    ensures t.osNumber == "AI-" + Decimal(r.osDraw)
    ensures t.title == s.title && t.description == s.description
    ensures t.columnId == Entry && !t.isApproved
    ensures t.serviceCost == 0 && t.partsCost == 0
    ensures t.photos == [] && t.chatHistory == [] && t.subtasks == []
    ensures t.checklist == InitialChecklist()
    ensures t.priority == SuggestedPriority(s.priority)
    ensures t.tags == if s.tags.Some? then s.tags.value else ["AI Generated"]
    ensures t.budgetExpiryDate.None?
  {
    Task(
      id := GeneratedId(r.idMillis, index),
      osNumber := "AI-" + Decimal(r.osDraw),
      title := s.title,
      description := s.description,
      clientName := "AI System",
      clientPhone := "",
      clientCpf := None,
      clientAddress := None,
      equipment := "General",
      serialNumber := None,
      priority := SuggestedPriority(s.priority),
      columnId := Entry,
      subtasks := [],
      checklist := InitialChecklist(),
      chatHistory := [],
      signature := None,
      techSignature := None,
      isApproved := false,
      createdAt := r.createdMillis,
      tags := if s.tags.Some? then s.tags.value else ["AI Generated"],
      serviceCost := 0,
      partsCost := 0,
      technicalObservation := "",
      photos := [],
      budgetExpiryDate := None)
  }

  /** `handleGenerate`. */
  function Generate(goal: string, reply: Remote<seq<Suggestion>>, draws: seq<Draw>): (g: Generation)
    requires reply.Ok? ==> ValidDraws(draws, |reply.value|)
    ensures IsBlank(goal) <==> g.NoCall?
    ensures !IsBlank(goal) && reply.Err? ==> g.GenerationFailed?
    ensures !IsBlank(goal) && reply.Ok? ==> g.Generated? && |g.tasks| == |reply.value|
    ensures g.Generated? ==> forall i :: 0 <= i < |g.tasks| ==>
      g.tasks[i] == FromSuggestion(reply.value[i], i, draws[i])
  {
    if IsBlank(goal) then NoCall
    else match reply
      case Err(_) => GenerationFailed
      case Ok(suggestions) =>
        Generated(seq(|suggestions|, i requires 0 <= i < |suggestions| =>
          FromSuggestion(suggestions[i], i, draws[i])))
  }

  /** In `x + "-" + y` with `x` all digits, the first dash is at `|x|`. */
  lemma FirstDash(x: string, y: string)
    requires AllDigits(x)
    ensures (x + "-" + y)[|x|] == '-'
    ensures forall k :: 0 <= k < |x| ==> (x + "-" + y)[k] != '-'
  {
  }

  /** If `x + "-" + y == u + "-" + v` and `x`, `u` hold only digits, the two
      sides split at the same dash. */
  lemma SplitAtDash(x: string, y: string, u: string, v: string)
    requires AllDigits(x) && AllDigits(u)
    requires x + "-" + y == u + "-" + v
    ensures x == u && y == v
  {
    var w := x + "-" + y;
    FirstDash(x, y);
    FirstDash(u, v);
    assert |x| == |u|;
    assert x == w[..|x|];
    assert u == w[..|u|];
    assert y == w[|x| + 1..];
    assert v == w[|u| + 1..];
  }

  /** Ids of one batch differ whatever the clock reads: the index is always
      recoverable from the id. */
  lemma GeneratedIdInjective(a: nat, i: nat, b: nat, j: nat)
    requires GeneratedId(a, i) == GeneratedId(b, j)
    ensures a == b && i == j
  {
    var p := "gen-";
    var ra := Decimal(a) + "-" + Decimal(i);
    var rb := Decimal(b) + "-" + Decimal(j);
    assert GeneratedId(a, i) == p + ra;
    assert GeneratedId(b, j) == p + rb;
    assert ra == (p + ra)[|p|..];
    assert rb == (p + rb)[|p|..];
    SplitAtDash(Decimal(a), Decimal(i), Decimal(b), Decimal(j));
    DecimalInjective(a, b);
    DecimalInjective(i, j);
  }

  /** The orders of one batch have pairwise distinct ids, every order
      number is `AI-` followed by a number below 10000, and none of them can
      show as expired, since none carries a budget expiry date. */
  lemma GeneratedBatch(goal: string, reply: Remote<seq<Suggestion>>, draws: seq<Draw>, now: int)
    requires reply.Ok? ==> ValidDraws(draws, |reply.value|)
    ensures var g := Generate(goal, reply, draws);
      g.Generated? ==> forall i, j :: 0 <= i < j < |g.tasks| ==> g.tasks[i].id != g.tasks[j].id
    ensures var g := Generate(goal, reply, draws);
      g.Generated? ==> forall i :: 0 <= i < |g.tasks| ==>
        var os := g.tasks[i].osNumber;
        |os| > 3 && os[..3] == "AI-" && AllDigits(os[3..]) && ValueOf(os[3..]) < 10000
    ensures var g := Generate(goal, reply, draws);
      g.Generated? ==> forall i :: 0 <= i < |g.tasks| ==> !Card.IsExpired(g.tasks[i], now)
  {
    var g := Generate(goal, reply, draws);
    if g.Generated? {
      forall i, j | 0 <= i < j < |g.tasks|
        ensures g.tasks[i].id != g.tasks[j].id
      {
        if g.tasks[i].id == g.tasks[j].id {
          GeneratedIdInjective(draws[i].idMillis, i, draws[j].idMillis, j);
        }
      }
      forall i | 0 <= i < |g.tasks|
        ensures var os := g.tasks[i].osNumber;
          |os| > 3 && os[..3] == "AI-" && AllDigits(os[3..]) && ValueOf(os[3..]) < 10000
      {
        var d := Decimal(draws[i].osDraw);
        assert g.tasks[i].osNumber == "AI-" + d;
        assert ("AI-" + d)[3..] == d;
      }
    }
  }
}
