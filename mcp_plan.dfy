/**
 * The part of `getAIPlan` (src/lib/mcp-tools.js) that turns the assistant's reply into
 * plans: cut the JSON object out of the reply text, parse it, and fall back to default
 * plans for a missing `filter` or `rank`. The request itself is not part of this model;
 * `JSON.parse` is a parameter.
 */
module McpPlan {
  import opened Wrappers
  import opened JsStrings
  import opened JsValues
  import opened McpMatch
  import opened McpFilter
  import opened McpRank

  /**
   * The object `JSON.parse` returns, as far as `getAIPlan` reads it: `None` for a
   * `filter` or `rank` that is missing or falsy.
   */
  datatype AiReply = AiReply(filter: Option<FilterPlan>, rank: Option<RankPlan>)

  /** What `getAIPlan` resolves to. */
  datatype AiPlan = AiPlan(filterPlan: FilterPlan, rankPlan: RankPlan, rawResponse: string)

  /**
   * `JSON.parse` followed by reading the result's properties: a `Failure` when the text
   * is not JSON or parses to `null` (both throw).
   */
  type JsonParser = string -> Result<AiReply>

  /** `{ include: [], exclude: [] }`. */
  const DefaultFilter: FilterPlan := FilterObject(Some([]), Some([]))

  /** `{ primary: 'years_experience', tie_breakers: [] }`. */
  const DefaultRank: RankPlan := RankObject("years_experience", [])

  /**
   * `content.substring(content.indexOf('{'), content.lastIndexOf('}') + 1)`, or the
   * error thrown when there is no `{` before a `}`.
   */
  function ExtractJsonText(content: string): Result<string> {
    var first := IndexOf(content, '{');
    var last := LastIndexOf(content, '}');
    if first == -1 || last == -1 || first >= last then Failure("No valid JSON found in AI response")
    else Success(content[first..last + 1])
  }

  /** The extraction succeeds exactly when some `{` comes before some `}`. */
  lemma ExtractSucceedsIff(content: string)
    ensures ExtractJsonText(content).Success?
        <==> exists i, j :: 0 <= i < j < |content| && content[i] == '{' && content[j] == '}'
  {
    var first := IndexOf(content, '{');
    var last := LastIndexOf(content, '}');
    if exists i, j :: 0 <= i < j < |content| && content[i] == '{' && content[j] == '}' {
      var i, j :| 0 <= i < j < |content| && content[i] == '{' && content[j] == '}';
      assert content[..first + 1][first] == '{';
      assert first <= i;
      assert j <= last;
    }
  }

  /**
   * A successful extraction is delimited by the first `{` and the last `}` of the reply:
   * it starts at some position `k` with no `{` before it, and no `}` follows it.
   */
  lemma ExtractDelimited(content: string)
    requires ExtractJsonText(content).Success?
    ensures var r := ExtractJsonText(content).value;
      && 2 <= |r| && r[0] == '{' && r[|r| - 1] == '}'
      && exists k :: 0 <= k && k + |r| <= |content| && content[k..k + |r|] == r
           && '{' !in content[..k] && '}' !in content[k + |r|..]
  {
    var first := IndexOf(content, '{');
    var last := LastIndexOf(content, '}');
    var r := content[first..last + 1];
    assert first + |r| == last + 1;
  }

  /** Prose around a JSON object does not disturb it: the object is extracted as it is. */
  lemma ExtractFromSurroundingText(pre: string, body: string, post: string)
    requires '{' !in pre && '}' !in post
    requires 2 <= |body| && body[0] == '{' && body[|body| - 1] == '}'
    ensures ExtractJsonText(pre + body + post) == Success(body)
  {
    var content := pre + body + post;
    assert content[..|pre|] == pre;
    assert content[|pre| + |body|..] == post;
    assert content[|pre|] == '{';
    assert content[|pre| + |body| - 1] == '}';
    assert content[|pre|..|pre| + |body|] == body;
  }

  /**
   * From the assistant's reply to the plans: a missing or empty reply and a reply with
   * no JSON object throw, and so does `JSON.parse`; a missing `filter` or `rank` is
   * replaced by its default.
   */
  function PlansFromReply(content: string, parse: JsonParser): Result<AiPlan> {
    if content == [] then Failure("No AI response found in API response")
    else
      match ExtractJsonText(content)
      case Failure(msg) => Failure(msg)
      case Success(text) =>
        match parse(text)
        case Failure(msg) => Failure(msg)
        case Success(reply) =>
          Success(AiPlan(reply.filter.GetOr(DefaultFilter), reply.rank.GetOr(DefaultRank), content))
  }

  /**
   * The plans come from parsing exactly the extracted object; a plan the reply supplies is
   * used as it is and a missing one is the default; the raw reply is kept.
   */
  lemma PlansFromReplyMeaning(content: string, parse: JsonParser)
    ensures PlansFromReply(content, parse).Success?
        <==> content != [] && ExtractJsonText(content).Success? && parse(ExtractJsonText(content).value).Success?
    ensures PlansFromReply(content, parse).Success? ==>
      var reply := parse(ExtractJsonText(content).value).value;
      var plan := PlansFromReply(content, parse).value;
      && plan.rawResponse == content
      && (reply.filter.Some? ==> plan.filterPlan == reply.filter.value)
      && (reply.filter.None? ==> plan.filterPlan == DefaultFilter)
      && (reply.rank.Some? ==> plan.rankPlan == reply.rank.value)
      && (reply.rank.None? ==> plan.rankPlan == DefaultRank)
  {
  }

  /** The default filter keeps every candidate in order; the default rank sorts by `years_experience` alone. */
  lemma DefaultPlansMeaning(rt: Runtime, candidates: seq<Record>)
    ensures Survivors(rt, DefaultFilter, candidates) == candidates
    ensures SortFields(DefaultRank) == ["years_experience"]
  {
    PlanWithoutCriteriaKeepsAll(rt, DefaultFilter, candidates);
  }

  /**
   * React developers in Cyprus, most experienced first, from filter to ranking: the plan
   * keeps ids 5 and 12, and ranking those ids by experience over the whole list puts id 12,
   * with 7 years, before id 5, with 3.
   */
  lemma ReactInCyprusByExperience(rt: Runtime, lisa: Record, nikos: Record, anna: Record)
    requires Get(lisa, "id") == Num(5) && Get(nikos, "id") == Num(12) && Get(anna, "id") == Num(8)
    requires Get(lisa, "skills") == Arr(["React", "JavaScript", "CSS"]) && Get(lisa, "location") == Str("Cyprus")
    requires Get(nikos, "skills") == Arr(["React", "TypeScript", "Node.js"]) && Get(nikos, "location") == Str("Cyprus")
    requires Get(anna, "location") == Str("Germany")
    requires Get(lisa, "experience") == Num(3) && Get(nikos, "experience") == Num(7)
    ensures var kept := Survivors(rt, ReactInCyprus, [lisa, nikos, anna]);
      var ids := seq(|kept|, i requires 0 <= i < |kept| => Get(kept[i], "id"));
      ids == [Num(5), Num(12)] && Ranked(rt, ids, RankObject("experience", []), [lisa, nikos, anna]) == [nikos, lisa]
  {
    ReactInCyprusFilter(rt, lisa, nikos, anna);
    var kept := Survivors(rt, ReactInCyprus, [lisa, nikos, anna]);
    assert kept == [lisa, nikos];
    var ids := seq(|kept|, i requires 0 <= i < |kept| => Get(kept[i], "id"));
    assert ids == [Num(5), Num(12)];
    MoreExperienceRanksFirst(rt, lisa, nikos, anna, 3, 7);
  }
}
