/**
 * How the task listing handler turns a request's query string into a
 * store query: the control parameters are removed, the owner is pinned to
 * the caller, comparison operator words become `$`-operators, and the
 * select, sort and pagination parameters are read.
 */
module TaskQuery {
  import opened Wrappers
  import Text
  import Seqs

  /** A parsed query-string value: a string, an array or a nested object. */
  datatype Value = Str(text: string) | List(items: seq<Value>) | Object(entries: seq<Entry>)
  datatype Entry = Entry(key: string, value: Value)

  /** The parameters that steer the listing and never reach the filter. */
  const ControlFields: seq<string> := ["select", "sort", "page", "limit"]

  // ---------------------------------------------------------------------
  // The query object as a key/value list
  // ---------------------------------------------------------------------

  /** `q[key]`: the first entry with that key. */
  function Lookup(q: seq<Entry>, key: string): (r: Option<Value>)
    ensures r.Some? <==> exists i :: 0 <= i < |q| && q[i].key == key
  {
    if q == [] then None
    else if q[0].key == key then Some(q[0].value)
    else
      var r := Lookup(q[1..], key);
      assert forall i :: 0 < i < |q| ==> q[i] == q[1..][i - 1];
      r
  }

  /** `delete q[key]`. */
  function DeleteKey(q: seq<Entry>, key: string): (r: seq<Entry>)
    ensures Seqs.IsSubsequence(r, q)
    ensures forall k :: Lookup(r, k) == if k == key then None else Lookup(q, k)
    ensures forall i :: 0 <= i < |r| ==> r[i].key != key
  {
    if q == [] then []
    else if q[0].key == key then
      var r := DeleteKey(q[1..], key);
      Seqs.SubsequenceOfTail(r, q);
      r
    else
      var r := DeleteKey(q[1..], key);
      assert ([q[0]] + r)[1..] == r;
      [q[0]] + r
  }

  /** `q[key] = v`: an existing key keeps its place, a new one goes last. */
  function SetKey(q: seq<Entry>, key: string, v: Value): (r: seq<Entry>)
    ensures Lookup(r, key) == Some(v)
    ensures forall k :: k != key ==> Lookup(r, k) == Lookup(q, k)
  {
    if q == [] then [Entry(key, v)]
    else if q[0].key == key then [Entry(key, v)] + q[1..]
    else
      var r := SetKey(q[1..], key, v);
      assert ([q[0]] + r)[1..] == r;
      [q[0]] + r
  }

  /** Setting a key adds no key besides it. */
  lemma {:induction false} SetKeyKeys(q: seq<Entry>, key: string, v: Value)
    ensures var r := SetKey(q, key, v);
      forall i :: 0 <= i < |r| ==> r[i].key == key || Lookup(q, r[i].key).Some?
  {
    if q != [] && q[0].key != key {
      SetKeyKeys(q[1..], key, v);
      var r := SetKey(q, key, v);
      forall i | 1 <= i < |r|
        ensures r[i].key == key || Lookup(q, r[i].key).Some?
      {
        assert r[i] == SetKey(q[1..], key, v)[i - 1];
        if Lookup(q[1..], r[i].key).Some? {
          var j :| 0 <= j < |q[1..]| && q[1..][j].key == r[i].key;
          assert q[j + 1].key == r[i].key;
        }
      }
    }
  }

  /** The loop over the control parameters, deleting each from the copy. */
  method StripControlFields(query: seq<Entry>) returns (q: seq<Entry>)
    ensures forall k :: Lookup(q, k) == if k in ControlFields then None else Lookup(query, k)
    ensures Seqs.IsSubsequence(q, query)
  {
    q := query;
    Seqs.SubsequenceRefl(query);
    var i := 0;
    while i < |ControlFields|
      invariant 0 <= i <= |ControlFields|
      invariant forall k :: Lookup(q, k) == if k in ControlFields[..i] then None else Lookup(query, k)
      invariant Seqs.IsSubsequence(q, query)
    {
      var q' := DeleteKey(q, ControlFields[i]);
      Seqs.SubsequenceTrans(q', q, query);
      assert ControlFields[..i + 1] == ControlFields[..i] + [ControlFields[i]];
      q := q';
      i := i + 1;
    }
    assert ControlFields[..i] == ControlFields;
  }

  // ---------------------------------------------------------------------
  // Operator words: gt, gte, lt, lte, in
  // ---------------------------------------------------------------------

  predicate IsWordChar(c: char)
  {
    'a' <= c <= 'z' || 'A' <= c <= 'Z' || '0' <= c <= '9' || c == '_'
  }

  const OperatorWords: set<string> := {"gt", "gte", "lt", "lte", "in"}

  /** The length of the word `s` starts with. */
  function WordLength(s: string): (n: nat)
    ensures n <= |s|
    ensures s != [] && IsWordChar(s[0]) ==> n >= 1
  {
    if s == [] || !IsWordChar(s[0]) then 0 else 1 + WordLength(s[1..])
  }

  /** The word is made of word characters and ends at a non-word character
      or at the end. */
  lemma {:induction false} WordLengthBounds(s: string)
    ensures forall i :: 0 <= i < WordLength(s) ==> IsWordChar(s[i])
    ensures WordLength(s) < |s| ==> !IsWordChar(s[WordLength(s)])
  {
    if s != [] && IsWordChar(s[0]) {
      WordLengthBounds(s[1..]);
    }
  }

  /** Whether `s` starts with a whole word from `words`. */
  predicate StartsWithWordIn(s: string, words: set<string>)
  {
    s != [] && IsWordChar(s[0]) && s[..WordLength(s)] in words
  }

  /** Putting a `$` in front of every whole word that belongs to `words`
      (the rules below hold for any set of words). */
  function RewriteWith(s: string, words: set<string>): (r: string)
    decreases |s|
  {
    if s == [] then []
    else if !IsWordChar(s[0]) then [s[0]] + RewriteWith(s[1..], words)
    else
      var n := WordLength(s);
      (if s[..n] in words then "$" + s[..n] else s[..n]) + RewriteWith(s[n..], words)
  }

  /** The inverse: dropping a `$` that stands before a whole word of
      `words`. */
  function RestoreWith(s: string, words: set<string>): (r: string)
    decreases |s|
  {
    if s == [] then []
    else if !IsWordChar(s[0]) then
      if s[0] == '$' && StartsWithWordIn(s[1..], words) then RestoreWith(s[1..], words)
      else [s[0]] + RestoreWith(s[1..], words)
    else
      var n := WordLength(s);
      s[..n] + RestoreWith(s[n..], words)
  }

  /** The operator rewrite: `$` before every whole `gt`, `gte`, `lt`, `lte`
      and `in`. */
  function RewriteWords(s: string): string
  {
    RewriteWith(s, OperatorWords)
  }

  function RestoreWords(s: string): string
  {
    RestoreWith(s, OperatorWords)
  }

  /** A word followed by a non-word character (or nothing) is read whole. */
  lemma {:induction false} WordLengthOfWord(w: string, t: string)
    requires forall i :: 0 <= i < |w| ==> IsWordChar(w[i])
    requires t == [] || !IsWordChar(t[0])
    ensures WordLength(w + t) == |w|
    decreases |w|
  {
    if w == [] {
      assert w + t == t;
    } else {
      var wt := w + t;
      assert wt[0] == w[0];
      assert wt[1..] == w[1..] + t;
      WordLengthOfWord(w[1..], t);
    }
  }

  /** The rewritten text starts where the original does: at a non-word
      character, or at the end. */
  lemma RewriteStartsNonWord(t: string, words: set<string>)
    requires t == [] || !IsWordChar(t[0])
    ensures RewriteWith(t, words) == [] || RewriteWith(t, words)[0] == t[0]
  {
  }

  /** Rewritten text never starts with a bare word of `words`. */
  lemma RewriteNoBareWord(t: string, words: set<string>)
    ensures !StartsWithWordIn(RewriteWith(t, words), words)
  {
    if t != [] && IsWordChar(t[0]) {
      var n := WordLength(t);
      WordLengthBounds(t);
      if t[..n] !in words {
        RewriteStartsNonWord(t[n..], words);
        WordLengthOfWord(t[..n], RewriteWith(t[n..], words));
        assert (t[..n] + RewriteWith(t[n..], words))[..n] == t[..n];
      }
    }
  }

  /** Restoring undoes rewriting. */
  lemma {:induction false} RestoreRewrite(s: string, words: set<string>)
    ensures RestoreWith(RewriteWith(s, words), words) == s
    decreases |s|
  {
    if s != [] {
      if !IsWordChar(s[0]) {
        RestoreRewrite(s[1..], words);
        RestoreAfterNonWord(s, words);
      } else {
        RestoreRewrite(s[WordLength(s)..], words);
        RestoreAfterWord(s, words);
      }
    }
  }

  /** The step of `RestoreRewrite` at a leading non-word character. */
  lemma RestoreAfterNonWord(s: string, words: set<string>)
    requires s != [] && !IsWordChar(s[0])
    requires RestoreWith(RewriteWith(s[1..], words), words) == s[1..]
    ensures RestoreWith(RewriteWith(s, words), words) == s
  {
    var rest := RewriteWith(s[1..], words);
    RewriteNoBareWord(s[1..], words);
    assert ([s[0]] + rest)[1..] == rest;
  }

  /** The step of `RestoreRewrite` at a leading word. */
  lemma RestoreAfterWord(s: string, words: set<string>)
    requires s != [] && IsWordChar(s[0])
    requires RestoreWith(RewriteWith(s[WordLength(s)..], words), words) == s[WordLength(s)..]
    ensures RestoreWith(RewriteWith(s, words), words) == s
  {
    var n := WordLength(s);
    var w := s[..n];
    var rest := RewriteWith(s[n..], words);
    RewriteAtWord(s, words);
    assert w + s[n..] == s;
    if w in words {
      calc {
        RestoreWith(RewriteWith(s, words), words);
        RestoreWith("$" + w + rest, words);
        { RestoreDollar(w, rest, words); }
        RestoreWith(w + rest, words);
        { RestoreWord(w, rest, words); }
        w + RestoreWith(rest, words);
      }
    } else {
      calc {
        RestoreWith(RewriteWith(s, words), words);
        RestoreWith(w + rest, words);
        { RestoreWord(w, rest, words); }
        w + RestoreWith(rest, words);
      }
    }
  }

  /** How the rewrite treats a leading word: the word, with a `$` in front
      when it is in the set, then the rewritten remainder, which starts at a
      non-word character. */
  lemma RewriteAtWord(s: string, words: set<string>)
    requires s != [] && IsWordChar(s[0])
    ensures var n := WordLength(s);
      var rest := RewriteWith(s[n..], words);
      (forall i :: 0 <= i < n ==> IsWordChar(s[..n][i])) && n >= 1 &&
      (rest == [] || !IsWordChar(rest[0])) &&
      RewriteWith(s, words) == (if s[..n] in words then "$" + s[..n] + rest else s[..n] + rest)
  {
    var n := WordLength(s);
    WordLengthBounds(s);
    RewriteStartsNonWord(s[n..], words);
  }

  /** A whole word is copied by the restore. */
  lemma RestoreWord(w: string, rest: string, words: set<string>)
    requires w != [] && forall i :: 0 <= i < |w| ==> IsWordChar(w[i])
    requires rest == [] || !IsWordChar(rest[0])
    ensures RestoreWith(w + rest, words) == w + RestoreWith(rest, words)
  {
    var t := w + rest;
    WordLengthOfWord(w, rest);
    assert t[0] == w[0];
    assert t[..|w|] == w && t[|w|..] == rest;
  }

  /** A `$` before a whole word of `words` is dropped by the restore. */
  lemma RestoreDollar(w: string, rest: string, words: set<string>)
    requires w != [] && forall i :: 0 <= i < |w| ==> IsWordChar(w[i])
    requires rest == [] || !IsWordChar(rest[0])
    requires w in words
    ensures RestoreWith("$" + w + rest, words) == RestoreWith(w + rest, words)
  {
    var t := "$" + w + rest;
    WordLengthOfWord(w, rest);
    assert t[1..] == w + rest;
    assert (w + rest)[0] == w[0] && (w + rest)[..|w|] == w;
    assert StartsWithWordIn(t[1..], words);
  }

  /** Different strings stay different after rewriting. */
  lemma RewriteInjective(a: string, b: string)
    requires RewriteWords(a) == RewriteWords(b)
    ensures a == b
  {
    RestoreRewrite(a, OperatorWords);
    RestoreRewrite(b, OperatorWords);
  }

  /** A single whole word is rewritten exactly when it is in the set. */
  lemma RewriteWholeWord(w: string, words: set<string>)
    requires w != [] && forall i :: 0 <= i < |w| ==> IsWordChar(w[i])
    ensures RewriteWith(w, words) == if w in words then "$" + w else w
  {
    WordLengthOfWord(w, []);
    assert w + [] == w;
    assert w[..|w|] == w && w[|w|..] == [];
  }

  /** A non-empty word of lower-case letters that is not an operator word. */
  predicate IsPlainWord(w: string)
  {
    w != [] && (forall i :: 0 <= i < |w| ==> 'a' <= w[i] <= 'z') && w !in OperatorWords
  }

  /** The control parameters and the owner key are plain words. */
  lemma PlainKeys()
    ensures forall k :: k in ControlFields ==> IsPlainWord(k)
    ensures IsPlainWord("user")
  {
  }

  /** A plain word is left as it is by the rewrite. */
  lemma PlainWord(w: string)
    requires IsPlainWord(w)
    ensures RewriteWords(w) == w
  {
    RewriteWholeWord(w, OperatorWords);
  }

  /** The rewrite at every string of the query: keys, values and the
      strings inside arrays and nested objects. */
  function RewriteValue(v: Value): (r: Value)
    decreases v
  {
    match v
    case Str(t) => Str(RewriteWords(t))
    case List(items) => List(seq(|items|, i requires 0 <= i < |items| => RewriteValue(items[i])))
    case Object(entries) =>
      Object(seq(|entries|, i requires 0 <= i < |entries| =>
        Entry(RewriteWords(entries[i].key), RewriteValue(entries[i].value))))
  }

  function RewriteEntries(q: seq<Entry>): (r: seq<Entry>)
    ensures |r| == |q|
    ensures forall i :: 0 <= i < |q| ==>
      r[i] == Entry(RewriteWords(q[i].key), RewriteValue(q[i].value))
  {
    seq(|q|, i requires 0 <= i < |q| => Entry(RewriteWords(q[i].key), RewriteValue(q[i].value)))
  }

  function RewriteOption(v: Option<Value>): Option<Value>
  {
    if v.None? then None else Some(RewriteValue(v.value))
  }

  /** Looking up a rewritten key in the rewritten query finds the rewritten
      value of the original key. */
  lemma {:induction false} LookupRewritten(q: seq<Entry>, k: string)
    ensures Lookup(RewriteEntries(q), RewriteWords(k)) == RewriteOption(Lookup(q, k))
  {
    if q != [] {
      if RewriteWords(q[0].key) == RewriteWords(k) {
        RewriteInjective(q[0].key, k);
      } else {
        assert RewriteEntries(q)[1..] == RewriteEntries(q[1..]);
        LookupRewritten(q[1..], k);
      }
    }
  }

  // ---------------------------------------------------------------------
  // select, sort and pagination
  // ---------------------------------------------------------------------

  /** What `if (p) { p.split(',').join(' ') }` makes of a parameter: nothing
      for a missing or empty one, the space-separated list for a string, and
      a failure for an array or object, which has no `split`. */
  datatype FieldList = Absent | Spaced(text: string) | Unsplittable

  function ReadFieldList(p: Option<Value>): (r: FieldList)
    ensures r.Spaced? ==> p.Some? && p.value.Str? && r.text == Text.Replace(p.value.text, ',', ' ')
    ensures r.Absent? <==> p.None? || p.value == Str("")
    ensures r.Unsplittable? <==> p.Some? && !p.value.Str?
  {
    if p.None? || p.value == Str("") then Absent
    else if p.value.Str? then
      Text.SplitJoin(p.value.text, ',', ' ');
      Spaced(Text.Join(Text.Split(p.value.text, ','), ' '))
    else Unsplittable
  }

  /** `parseInt(p, 10) || fallback`, with the parse result given: a missing
      number (NaN) and zero both fall back. */
  function NumberOr(parsed: Option<int>, fallback: int): (r: int)
    ensures r == fallback || (parsed == Some(r) && r != 0)
  {
    if parsed.None? || parsed.value == 0 then fallback else parsed.value
  }

  datatype PageRef = PageRef(page: int, limit: int)
  datatype Pagination = Pagination(next: Option<PageRef>, prev: Option<PageRef>)

  /** The links to the neighbouring pages, given the number of matches. */
  function Paginate(page: int, limit: int, total: nat): (r: Pagination)
    ensures r.next.Some? ==> r.next.value == PageRef(page + 1, limit)
    ensures r.prev.Some? ==> r.prev.value == PageRef(page - 1, limit)
  {
    Pagination(
      if page * limit < total then Some(PageRef(page + 1, limit)) else None,
      if (page - 1) * limit > 0 then Some(PageRef(page - 1, limit)) else None)
  }

  /** How many of `total` matches a window skipping `skip` and holding at
      most `limit` contains. */
  function ItemsInWindow(total: nat, skip: nat, limit: nat): nat
  {
    if skip >= total then 0 else if total - skip < limit then total - skip else limit
  }

  /** For a positive page and limit: there is a previous page exactly past
      the first page, and a next page exactly when the window after this one
      holds a match. */
  lemma PaginateMeaning(page: int, limit: int, total: nat)
    requires page >= 1 && limit >= 1
    ensures Paginate(page, limit, total).prev.Some? <==> page > 1
    ensures Paginate(page, limit, total).next.Some? <==> ItemsInWindow(total, page * limit, limit) > 0
  {
    if page > 1 {
      assert (page - 1) * limit >= limit;
    }
  }

  /** `filter` is the store filter for `query` asked by `caller`: no control
      parameter, the owner set to the caller, every other key of the query
      present under its rewritten name with its value rewritten, and no key
      besides the owner and those. */
  ghost predicate IsFilterFor(filter: seq<Entry>, query: seq<Entry>, caller: string)
  {
    (forall k :: k in ControlFields ==> Lookup(filter, k) == None) &&
    Lookup(filter, "user") == Some(Str(RewriteWords(caller))) &&
    (forall k {:trigger Lookup(filter, RewriteWords(k))} :: k !in ControlFields && k != "user" ==>
      Lookup(filter, RewriteWords(k)) == RewriteOption(Lookup(query, k))) &&
    (forall j :: 0 <= j < |filter| ==>
      filter[j].key == "user" ||
      exists k :: k !in ControlFields && k != "user" && Lookup(query, k).Some? &&
        filter[j].key == RewriteWords(k))
  }

  /** The filter the listing hands to the store: the query without its
      control parameters, owned by the caller, with operator words
      rewritten. */
  method BuildFilter(query: seq<Entry>, caller: string) returns (filter: seq<Entry>)
    ensures IsFilterFor(filter, query, caller)
  {
    var stripped := StripControlFields(query);
    var q := SetKey(stripped, "user", Str(caller));
    filter := RewriteEntries(q);
    ControlsHidden(stripped, caller);
    OwnerSet(stripped, caller);
    NothingElse(query, stripped, caller);
    forall k | k !in ControlFields && k != "user"
      ensures Lookup(filter, RewriteWords(k)) == RewriteOption(Lookup(query, k))
    {
      LookupRewritten(q, k);
      assert Lookup(q, k) == Lookup(stripped, k);
    }
  }

  /** After the owner is set, the rewritten query has no control key when
      the stripped one had none. */
  lemma ControlsHidden(stripped: seq<Entry>, caller: string)
    requires forall k :: k in ControlFields ==> Lookup(stripped, k) == None
    ensures forall k :: k in ControlFields ==>
      Lookup(RewriteEntries(SetKey(stripped, "user", Str(caller))), k) == None
  {
    PlainKeys();
    forall k | k in ControlFields
      ensures Lookup(RewriteEntries(SetKey(stripped, "user", Str(caller))), k) == None
    {
      HiddenKey(stripped, caller, k);
    }
  }

  /** A plain key other than the owner that the stripped query lacks is
      missing from the rewritten query. */
  lemma HiddenKey(stripped: seq<Entry>, caller: string, k: string)
    requires IsPlainWord(k) && k != "user" && Lookup(stripped, k) == None
    ensures Lookup(RewriteEntries(SetKey(stripped, "user", Str(caller))), k) == None
  {
    var q := SetKey(stripped, "user", Str(caller));
    PlainWord(k);
    LookupRewritten(q, k);
  }

  /** After the owner is set and the query rewritten, the owner is the
      rewritten caller. */
  lemma OwnerSet(stripped: seq<Entry>, caller: string)
    ensures Lookup(RewriteEntries(SetKey(stripped, "user", Str(caller))), "user") ==
      Some(Str(RewriteWords(caller)))
  {
    PlainKeys();
    PlainWord("user");
    LookupRewritten(SetKey(stripped, "user", Str(caller)), "user");
  }

  /** Every key of the rewritten query is the owner or the rewritten name of
      a key of the original query that is not a control parameter. */
  lemma NothingElse(query: seq<Entry>, stripped: seq<Entry>, caller: string)
    requires forall k :: Lookup(stripped, k) == if k in ControlFields then None else Lookup(query, k)
    ensures var filter := RewriteEntries(SetKey(stripped, "user", Str(caller)));
      forall j :: 0 <= j < |filter| ==>
        filter[j].key == "user" ||
        exists k :: k !in ControlFields && k != "user" && Lookup(query, k).Some? &&
          filter[j].key == RewriteWords(k)
  {
    var q := SetKey(stripped, "user", Str(caller));
    var filter := RewriteEntries(q);
    PlainKeys();
    PlainWord("user");
    SetKeyKeys(stripped, "user", Str(caller));
    forall j | 0 <= j < |filter|
      ensures filter[j].key == "user" ||
        exists k :: k !in ControlFields && k != "user" && Lookup(query, k).Some? &&
          filter[j].key == RewriteWords(k)
    {
      var k := q[j].key;
      assert filter[j].key == RewriteWords(k);
      if k != "user" {
        assert Lookup(stripped, k).Some?;
        assert k !in ControlFields && Lookup(query, k).Some?;
      }
    }
  }

  /** An operator word on its own starts with itself. */
  lemma OperatorWordsStartThemselves()
    ensures forall w :: w in OperatorWords ==> StartsWithWordIn(w, OperatorWords)
  {
    forall w | w in OperatorWords
      ensures StartsWithWordIn(w, OperatorWords)
    {
      WordLengthOfWord(w, []);
      assert w + [] == w;
      assert w[..|w|] == w;
    }
  }

  /** A rewritten string is never a bare operator word. */
  lemma RewrittenIsNoOperator(k: string)
    ensures RewriteWords(k) !in OperatorWords
  {
    OperatorWordsStartThemselves();
    RewriteNoBareWord(k, OperatorWords);
  }

  /** No key of a filter is a bare operator word, so nothing can be added
      to the filter under such a key. */
  lemma FilterHasNoOperatorKey(filter: seq<Entry>, query: seq<Entry>, caller: string)
    requires IsFilterFor(filter, query, caller)
    ensures forall j :: 0 <= j < |filter| ==> filter[j].key !in OperatorWords
  {
    forall k: string
      ensures RewriteWords(k) !in OperatorWords
    {
      RewrittenIsNoOperator(k);
    }
  }

  /** The listing's plan for the store. */
  datatype Plan = Plan(filter: seq<Entry>, select: Option<string>, sort: string,
                       skip: int, limit: int, pagination: Pagination)

  /**
   * The listing handler up to the store calls; `None` is a failure passed
   * to the error handler. The parsed `page` and `limit` numbers and the
   * number `total` of matching tasks come from outside the model.
   */
  method GetTasks(query: seq<Entry>, caller: string, parsedPage: Option<int>,
                  parsedLimit: Option<int>, total: nat)
    returns (r: Option<Plan>)
    ensures r.None? <==> (ReadFieldList(Lookup(query, "select")).Unsplittable? ||
                          ReadFieldList(Lookup(query, "sort")).Unsplittable?)
    ensures r.Some? ==> IsFilterFor(r.value.filter, query, caller)
    ensures r.Some? ==> (r.value.select.Some? <==> ReadFieldList(Lookup(query, "select")).Spaced?)
    ensures r.Some? && r.value.select.Some? ==>
      r.value.select.value == ReadFieldList(Lookup(query, "select")).text
    ensures r.Some? ==> (r.value.sort == if ReadFieldList(Lookup(query, "sort")).Spaced?
                                         then ReadFieldList(Lookup(query, "sort")).text else "order")
    ensures r.Some? ==>
      var page := NumberOr(parsedPage, 1);
      var limit := NumberOr(parsedLimit, 20);
      r.value.skip == (page - 1) * limit && r.value.limit == limit &&
      r.value.pagination == Paginate(page, limit, total)
  {
    var filter := BuildFilter(query, caller);
    var select := ReadFieldList(Lookup(query, "select"));
    var sort := ReadFieldList(Lookup(query, "sort"));
    if select.Unsplittable? || sort.Unsplittable? {
      return None;
    }
    var fields := if select.Spaced? then Some(select.text) else None;
    var sortBy := if sort.Spaced? then sort.text else "order";
    var page := NumberOr(parsedPage, 1);
    var limit := NumberOr(parsedLimit, 20);
    var startIndex := (page - 1) * limit;
    r := Some(Plan(filter, fields, sortBy, startIndex, limit, Paginate(page, limit, total)));
  }

  /** With no page or limit given, the first twenty matches are asked for
      and there is no previous page. */
  lemma DefaultWindow(total: nat)
    ensures NumberOr(None, 1) == 1 && NumberOr(None, 20) == 20
    ensures Paginate(1, 20, total).prev.None?
    ensures Paginate(1, 20, total).next.Some? <==> total > 20
  {
  }

  /** On the last page, the one whose window reaches the final match,
      there is no next page, the window holds what is left after the
      earlier pages, and there is a previous page exactly past the first. */
  lemma LastPage(page: int, limit: int, total: nat)
    requires page >= 1 && limit >= 1
    requires (page - 1) * limit < total <= page * limit
    ensures Paginate(page, limit, total).next.None?
    ensures Paginate(page, limit, total).prev.Some? <==> page > 1
    ensures ItemsInWindow(total, (page - 1) * limit, limit) == total - (page - 1) * limit
  {
    PaginateMeaning(page, limit, total);
    assert page * limit == (page - 1) * limit + limit;
  }
}
