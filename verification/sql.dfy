/** The shape of the parameterised queries the listing routes build: a list
    of AND-ed conditions, each naming the placeholder `$k` it reads, and the
    parameter list those placeholders index. Also the `LIKE` matcher the
    conditions use. */
module Sql {
  import opened Base

  /** A bound parameter. A number that is NaN or a date that is invalid is
      `None`; the store rejects a query that binds one. */
  datatype Param = IntParam(n: Option<int>) | TextParam(s: string) | TimeParam(t: Option<int>)

  predicate WellFormed(p: Param) {
    match p
    case IntParam(n) => n.Some?
    case TextParam(_) => true
    case TimeParam(t) => t.Some?
  }

  /** One condition: the column test `C` reading placeholder `$placeholder`. */
  datatype Cond<C> = Cond(column: C, placeholder: nat)

  datatype Query<C> = Query(conds: seq<Cond<C>>, params: seq<Param>)

  function Empty<C>(): Query<C> {
    Query([], [])
  }

  /** Placeholders line up with the parameter list: the k-th condition
      (counting from 1) reads `$k`, and `$k` is `params[k-1]`. */
  predicate Aligned<C>(q: Query<C>) {
    |q.conds| == |q.params| && forall k :: 0 <= k < |q.conds| ==> q.conds[k].placeholder == k + 1
  }

  /** Appends a condition reading the next placeholder together with its
      parameter, as `params.push(v)` followed by `$${params.length}` does. */
  function Push<C>(q: Query<C>, column: C, p: Param): (r: Query<C>)
    ensures r.conds == q.conds + [Cond(column, |q.params| + 1)]
    ensures r.params == q.params + [p]
    ensures Aligned(q) ==> Aligned(r)
  {
    Query(q.conds + [Cond(column, |q.params| + 1)], q.params + [p])
  }

  /** `if (b) { push }`: the condition is added only when `b` holds. */
  function PushIf<C>(q: Query<C>, b: bool, column: C, p: Param): (r: Query<C>)
    ensures Aligned(q) ==> Aligned(r)
    ensures |r.conds| == |q.conds| + (if b then 1 else 0)
  {
    if b then Push(q, column, p) else q
  }

  /** The parameter a condition of an aligned query reads. */
  function ParamOf<C>(q: Query<C>, k: nat): Param
    requires Aligned(q) && k < |q.conds|
  {
    q.params[q.conds[k].placeholder - 1]
  }

  /** A row passes every condition of an aligned query, each condition's
      test reading the parameter its placeholder names. */
  predicate Satisfies<R, C>(row: R, q: Query<C>, holds: (R, C, Param) -> bool) {
    Aligned(q) && forall k :: 0 <= k < |q.conds| ==> holds(row, q.conds[k].column, ParamOf(q, k))
  }

  predicate AllWellFormed<C>(q: Query<C>) {
    forall k :: 0 <= k < |q.params| ==> WellFormed(q.params[k])
  }

  /** A row passes a query with one more condition exactly when it passes
      the old conditions and the new one, which reads the new parameter. */
  lemma SatisfiesPush<R, C>(row: R, q: Query<C>, column: C, p: Param, holds: (R, C, Param) -> bool)
    requires Aligned(q)
    ensures Satisfies(row, Push(q, column, p), holds) <==> Satisfies(row, q, holds) && holds(row, column, p)
  {
    var r := Push(q, column, p);
    assert ParamOf(r, |q.conds|) == p;
    assert forall k :: 0 <= k < |q.conds| ==> r.conds[k] == q.conds[k] && ParamOf(r, k) == ParamOf(q, k);
  }

  lemma SatisfiesPushIf<R, C>(row: R, q: Query<C>, b: bool, column: C, p: Param, holds: (R, C, Param) -> bool)
    requires Aligned(q)
    ensures Satisfies(row, PushIf(q, b, column, p), holds) <==> Satisfies(row, q, holds) && (b ==> holds(row, column, p))
  {
    if b {
      SatisfiesPush(row, q, column, p, holds);
    }
  }

  /** The parameters stay bindable exactly when the new one is. */
  lemma WellFormedPushIf<C>(q: Query<C>, b: bool, column: C, p: Param)
    ensures AllWellFormed(PushIf(q, b, column, p)) <==> AllWellFormed(q) && (b ==> WellFormed(p))
  {
    if b {
      var r := Push(q, column, p);
      assert r.params[|q.params|] == p;
      assert forall k :: 0 <= k < |q.params| ==> r.params[k] == q.params[k];
    }
  }

  /** A condition the handler may push: whether it does, the column test
      and the parameter it would bind. */
  datatype Optional<C> = Optional(on: bool, column: C, param: Param)

  /** The query a run of `if (...) { push }` blocks builds, in order. */
  function Build<C>(opts: seq<Optional<C>>): (q: Query<C>)
    ensures Aligned(q)
    ensures |q.conds| == 0 <==> forall i :: 0 <= i < |opts| ==> !opts[i].on
    decreases |opts|
  {
    if |opts| == 0 then Empty()
    else
      var n := |opts| - 1;
      var q := Build(opts[..n]);
      assert forall i :: 0 <= i < n ==> opts[..n][i] == opts[i];
      PushIf(q, opts[n].on, opts[n].column, opts[n].param)
  }

  /** A row passes the built query exactly when it passes every condition
      that is switched on. */
  lemma {:induction false} BuildSatisfies<R, C>(row: R, opts: seq<Optional<C>>, holds: (R, C, Param) -> bool)
    ensures Satisfies(row, Build(opts), holds)
            <==> forall i :: 0 <= i < |opts| && opts[i].on ==> holds(row, opts[i].column, opts[i].param)
    decreases |opts|
  {
    if |opts| > 0 {
      var n := |opts| - 1;
      BuildSatisfies(row, opts[..n], holds);
      assert forall i :: 0 <= i < n ==> opts[..n][i] == opts[i];
      SatisfiesPushIf(row, Build(opts[..n]), opts[n].on, opts[n].column, opts[n].param, holds);
    }
  }

  /** The built query binds only well-formed parameters exactly when every
      switched-on condition's parameter is well formed. */
  lemma {:induction false} BuildWellFormed<C>(opts: seq<Optional<C>>)
    ensures AllWellFormed(Build(opts)) <==> forall i :: 0 <= i < |opts| && opts[i].on ==> WellFormed(opts[i].param)
    decreases |opts|
  {
    if |opts| > 0 {
      var n := |opts| - 1;
      BuildWellFormed(opts[..n]);
      assert forall i :: 0 <= i < n ==> opts[..n][i] == opts[i];
      WellFormedPushIf(Build(opts[..n]), opts[n].on, opts[n].column, opts[n].param);
    }
  }

  /** The one parameter of a text search: the trimmed search (empty when
      absent) between two `%`. */
  function SearchPattern(search: Option<string>): (p: string)
    ensures search.None? ==> p == "%%"
    ensures search.Some? ==> p == "%" + Trim(search.value) + "%"
  {
    "%" + (if search.Some? then Trim(search.value) else "") + "%"
  }

  /** `text LIKE pattern` with Postgres's default escape character, the
      backslash: `%` matches any run of characters, `_` any one character,
      `\x` the character x, and every other character itself. A pattern that
      ends in a lone backslash matches nothing here. */
  predicate Like(text: string, pattern: string)
    decreases |pattern|, |text|
  {
    if |pattern| == 0 then |text| == 0
    else if pattern[0] == '%' then
      Like(text, pattern[1..]) || (|text| > 0 && Like(text[1..], pattern))
    else if pattern[0] == '_' then
      |text| > 0 && Like(text[1..], pattern[1..])
    else if pattern[0] == '\\' then
      |pattern| > 1 && |text| > 0 && text[0] == pattern[1] && Like(text[1..], pattern[2..])
    else
      |text| > 0 && text[0] == pattern[0] && Like(text[1..], pattern[1..])
  }

  /** `text ILIKE pattern` and `LOWER(text) LIKE LOWER(pattern)`. */
  predicate ILike(text: string, pattern: string) {
    Like(ToLower(text), ToLower(pattern))
  }

  predicate IsWildcard(c: char) {
    c == '%' || c == '_' || c == '\\'
  }

  predicate Plain(s: string) {
    forall i :: 0 <= i < |s| ==> !IsWildcard(s[i])
  }

  /** A plain pattern followed by `%` matches exactly the texts it
      starts. */
  lemma {:induction false} LikePrefix(text: string, v: string)
    requires Plain(v)
    ensures Like(text, v + "%") <==> StartsWith(text, v)
    decreases |v|
  {
    if |v| == 0 {
      assert v + "%" == "%";
      LikeAnyRest(text);
    } else {
      assert (v + "%")[0] == v[0];
      assert (v + "%")[1..] == v[1..] + "%";
      if |text| > 0 {
        LikePrefix(text[1..], v[1..]);
        assert StartsWith(text, v) <==> text[0] == v[0] && StartsWith(text[1..], v[1..]) by {
          if |v| <= |text| {
            assert text[..|v|] == [text[0]] + text[1..][..|v| - 1];
            assert v == [v[0]] + v[1..];
          }
        }
      }
    }
  }

  /** `%` alone matches every text. */
  lemma {:induction false} LikeAnyRest(text: string)
    ensures Like(text, "%")
    decreases |text|
  {
    assert "%"[1..] == "";
    if |text| > 0 {
      LikeAnyRest(text[1..]);
    }
  }

  /** The `%term%` pattern every search builds: for a term with no
      wildcard or escape characters it matches exactly the texts containing
      the term. */
  lemma {:induction false} LikeContains(text: string, v: string)
    requires Plain(v)
    ensures Like(text, "%" + v + "%") <==> Contains(text, v)
    decreases |text|
  {
    var p := "%" + v + "%";
    assert p[1..] == v + "%";
    LikePrefix(text, v);
    if |text| > 0 {
      LikeContains(text[1..], v);
    }
  }

  /** Lower-casing keeps a term plain: no letter lower-cases to a wildcard
      or escape character. */
  lemma LowerPlain(v: string)
    requires Plain(v)
    ensures Plain(ToLower(v))
  {
    forall i | 0 <= i < |v| ensures !IsWildcard(ToLower(v)[i]) {
      assert ToLower(v)[i] == LowerChar(v[i]);
    }
  }

  /** The case-insensitive search: a plain term matches the texts that
      contain it once both are lower-cased. */
  lemma ILikeContains(text: string, v: string)
    requires Plain(v)
    ensures ILike(text, "%" + v + "%") <==> Contains(ToLower(text), ToLower(v))
  {
    assert ToLower("%" + v + "%") == "%" + ToLower(v) + "%";
    LowerPlain(v);
    LikeContains(ToLower(text), ToLower(v));
  }

  /** What a search parameter selects: no search matches every text, and a
      search whose trimmed text holds no wildcard matches exactly the texts
      that contain that trimmed text, ignoring case. Surrounding white
      space in the search never has to occur in the text. */
  lemma SearchPatternMeaning(text: string, search: Option<string>)
    requires search.Some? ==> Plain(Trim(search.value))
    ensures search.None? ==> ILike(text, SearchPattern(search))
    ensures search.Some? ==>
              (ILike(text, SearchPattern(search)) <==> Contains(ToLower(text), ToLower(Trim(search.value))))
  {
    if search.None? {
      assert SearchPattern(search) == "%" + "" + "%";
      ILikeContains(text, "");
      assert StartsWith(ToLower(text), ToLower(""));
    } else {
      ILikeContains(text, Trim(search.value));
    }
  }
}
