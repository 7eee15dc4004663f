/** The windows GET /api/v1/machines is served in. */
module Paging {
  import opened Numbers
  import opened Text

  const DEFAULT_LIMIT := 500

  datatype Query = Query(limit: string, offset: string)

  /** The part of the response that paging decides; limit and offset are echoed to the client. */
  datatype Page<T> = Page(total: nat, limit: nat, offset: nat, items: seq<T>) | BadPaging

  /** What a limit parameter asks for. */
  function LimitOf(v: string): Parsed {
    if v == "" then Number(DEFAULT_LIMIT)
    else
      match ParseInt(v)
      case NotANumber => NotANumber
      case Number(n) =>
        if n < 0 then NotANumber else if n == 0 || n > DEFAULT_LIMIT then Number(DEFAULT_LIMIT) else Number(n)
  }

  function OffsetOf(v: string): Parsed {
    if v == "" then Number(0)
    else if ParseInt(v).Number? && ParseInt(v).value < 0 then NotANumber
    else ParseInt(v)
  }

  function Window<T>(all: seq<T>, limit: nat, offset: nat): seq<T> {
    if offset >= |all| then [] else if offset + limit <= |all| then all[offset..offset + limit] else all[offset..]
  }

  function Answer<T>(all: seq<T>, q: Query): Page<T> {
    if LimitOf(q.limit).NotANumber? || OffsetOf(q.offset).NotANumber? then BadPaging
    else
      var limit, offset := LimitOf(q.limit).value, OffsetOf(q.offset).value;
      Page(|all|, limit, offset, Window(all, limit, offset))
  }

  method ParsePaging(q: Query) returns (limit: int, offset: int, ok: bool)
    ensures ok <==> LimitOf(q.limit).Number? && OffsetOf(q.offset).Number?
    ensures ok ==> 0 < limit <= DEFAULT_LIMIT && 0 <= offset
    ensures ok ==> LimitOf(q.limit) == Number(limit) && OffsetOf(q.offset) == Number(offset)
  {
    hide ParseInt;
    limit, offset := DEFAULT_LIMIT, 0;
    if q.limit != "" {
      match ParseInt(q.limit) {
        case NotANumber => return 0, 0, false;
        case Number(n) =>
          if n < 0 { return 0, 0, false; }
          limit := if n == 0 || n > DEFAULT_LIMIT then DEFAULT_LIMIT else n;
      }
    }
    if q.offset != "" {
      match ParseInt(q.offset) {
        case NotANumber => return 0, 0, false;
        case Number(n) =>
          if n < 0 { return 0, 0, false; }
          offset := n;
      }
    }
    ok := true;
  }

  /** handleAPIList, with the machine views already built: clamp the window, then copy it out. */
  method List<T>(machines: seq<T>, q: Query) returns (page: Page<T>)
    ensures page == Answer(machines, q)
  {
    hide LimitOf, OffsetOf;
    var limit, offset, ok := ParsePaging(q);
    if !ok { return BadPaging; }
    var total := |machines|;
    var lo := offset;
    if lo > total { lo := total; }
    var hi := lo + limit;
    if hi > total { hi := total; }
    var out: seq<T> := [];
    for i := lo to hi
      invariant out == machines[lo..i]
    {
      out := out + [machines[i]];
    }
    page := Page(total, limit, offset, out);
  }

  /** A client that asks for the next page from where the last one ended, by the echoed limit. */
  function Walk<T>(all: seq<T>, limit: string, offset: nat): seq<T>
    decreases |all| - offset
  {
    match Answer(all, Query(limit, FormatInt(offset)))
    case BadPaging => []
    case Page(total, echoed, _, items) =>
      if echoed == 0 || offset + echoed >= total then items else items + Walk(all, limit, offset + echoed)
  }

  lemma AnswerAt<T>(all: seq<T>, limit: string, offset: nat)
    requires LimitOf(limit).Number? && InInt64(offset)
    ensures 0 < LimitOf(limit).value <= DEFAULT_LIMIT
    ensures Answer(all, Query(limit, FormatInt(offset))) ==
            Page(|all|, LimitOf(limit).value, offset, Window(all, LimitOf(limit).value, offset))
  {
    ParseOfFormat(offset);
  }

  lemma {:induction false} WalkFrom<T>(all: seq<T>, limit: string, offset: nat)
    requires LimitOf(limit).Number? && offset <= |all| && InInt64(|all|)
    ensures Walk(all, limit, offset) == all[offset..]
    decreases |all| - offset
  {
    hide LimitOf, Answer, FormatInt;
    AnswerAt(all, limit, offset);
    var n := LimitOf(limit).value;
    if offset + n < |all| {
      WalkFrom(all, limit, offset + n);
      assert all[offset..] == all[offset..offset + n] + all[offset + n..];
    }
  }

  /** Walking from the start gives the whole list, each machine once and in order, whatever valid
      limit the client asks for: an absent, zero or oversized one included. */
  lemma WalkIsTheWholeList<T>(all: seq<T>, limit: string)
    requires LimitOf(limit).Number? && InInt64(|all|)
    ensures Walk(all, limit, 0) == all
  {
    WalkFrom(all, limit, 0);
    assert all[0..] == all;
  }

  /** Which parameters are refused and what the others mean: an absent, zero or larger limit is 500, an
      absent offset is 0, and anything that is no number, or a negative one, is refused. */
  lemma ParametersMean<T>(all: seq<T>, q: Query)
    ensures var a := Answer(all, q);
      && (a == BadPaging <==>
          || (q.limit != "" && (ParseInt(q.limit).NotANumber? || ParseInt(q.limit).value < 0))
          || (q.offset != "" && (ParseInt(q.offset).NotANumber? || ParseInt(q.offset).value < 0)))
      && (a.Page? ==>
            && a.limit == (if q.limit == "" || ParseInt(q.limit).value == 0 || ParseInt(q.limit).value > 500 then 500
                           else ParseInt(q.limit).value)
            && a.offset == (if q.offset == "" then 0 else ParseInt(q.offset).value))
  {
    hide ParseInt;
  }

  /** Any one answer: the items are the machines from the offset on, never more than asked for, and
      there are fewer only at the end of the list. */
  lemma ItemsAreThoseAsked<T>(all: seq<T>, q: Query)
    requires Answer(all, q).Page?
    ensures var p := Answer(all, q);
      && p.total == |all| && |p.items| <= p.limit <= 500
      && (forall i | 0 <= i < |p.items| :: p.offset + i < |all| && p.items[i] == all[p.offset + i])
      && (|p.items| < p.limit ==> p.offset + |p.items| >= |all|)
  {
    hide ParseInt;
  }
}
