/** The two email-address patterns of the code base, written out as predicates.

    The server (helpers.go and helpers.ts) uses `^[a-zA-Z0-9._%+-]+@[a-zA-Z0-9.-]+\.[a-zA-Z]{2,}$`; the
    signup and login forms use `^[^\s@]+@[^\s@]+\.[^\s@]+$`. A string matches a pattern of this shape
    exactly when it can be cut at an '@' and at a later '.' so that each piece is non-empty, made of
    the allowed characters, and (for the server) the last piece is at least two letters. */
module EmailFormat {
  import opened Text

  predicate AsciiLetter(c: char) {
    'a' <= c <= 'z' || 'A' <= c <= 'Z'
  }

  predicate AsciiAlnum(c: char) {
    AsciiLetter(c) || '0' <= c <= '9'
  }

  /** `[a-zA-Z0-9._%+-]` */
  predicate LocalChar(c: char) {
    AsciiAlnum(c) || c == '.' || c == '_' || c == '%' || c == '+' || c == '-'
  }

  /** `[a-zA-Z0-9.-]` */
  predicate DomainChar(c: char) {
    AsciiAlnum(c) || c == '.' || c == '-'
  }

  /** `[^\s@]` */
  predicate PlainChar(c: char) {
    !IsSpace(c) && c != '@'
  }

  /** `s` has a `[a-zA-Z0-9._%+-]` character at index `i`. */
  predicate LocalAt(s: string, i: int) {
    0 <= i < |s| && LocalChar(s[i])
  }

  /** `s` has a `[a-zA-Z0-9.-]` character at index `i`. */
  predicate DomainAt(s: string, i: int) {
    0 <= i < |s| && DomainChar(s[i])
  }

  /** `s` has a `[a-zA-Z]` character at index `i`. */
  predicate LetterAt(s: string, i: int) {
    0 <= i < |s| && AsciiLetter(s[i])
  }

  /** The server pattern, cut at the '@' at index `at` and the '.' at index `dot`. */
  predicate ServerCut(s: string, at: int, dot: int) {
    0 < at && at + 1 < dot && dot + 2 < |s| &&
    s[at] == '@' && s[dot] == '.' &&
    (forall i | 0 <= i < at :: LocalAt(s, i)) &&
    (forall i | at < i < dot :: DomainAt(s, i)) &&
    (forall i | dot < i < |s| :: LetterAt(s, i))
  }

  /** The position of the first `c` in `s`, or |s| when there is none. */
  function IndexOf(s: string, c: char): (k: nat)
    ensures k <= |s| && (k < |s| ==> s[k] == c)
    ensures forall i | 0 <= i < k :: s[i] != c
  {
    if s == [] || s[0] == c then 0 else 1 + IndexOf(s[1..], c)
  }

  /** The position of the first `c` in `s` at or after `from`, or |s| when there is none. */
  function IndexFrom(s: string, c: char, from: nat): (k: nat)
    requires from <= |s|
    ensures from <= k <= |s| && (k < |s| ==> s[k] == c)
    ensures forall i | from <= i < k :: s[i] != c
    decreases |s| - from
  {
    if from == |s| || s[from] == c then from else IndexFrom(s, c, from + 1)
  }

  /** The position of the last `c` in `s`, or -1 when there is none. */
  function LastIndexOf(s: string, c: char): (k: int)
    ensures -1 <= k < |s| && (k >= 0 ==> s[k] == c)
    ensures forall i | k < i < |s| :: s[i] != c
  {
    if s == [] then -1 else if s[|s| - 1] == c then |s| - 1 else LastIndexOf(s[..|s| - 1], c)
  }

  /** The email test of validateRegistration and validateLogin on the server. Neither character class
      before the top-level domain admits '@', and the top-level domain admits no '.', so the only
      possible cut is at the first '@' and the last '.' (ServerEmailOkIff). */
  predicate ServerEmailOk(s: string) {
    ServerCut(s, IndexOf(s, '@'), LastIndexOf(s, '.'))
  }

  /** ServerEmailOk is the regular expression: some cut of the address fits the pattern. */
  lemma ServerEmailOkIff(s: string)
    ensures ServerEmailOk(s) <==> exists at, dot | 0 <= at < |s| && 0 <= dot < |s| :: ServerCut(s, at, dot)
  {
    if exists at, dot | 0 <= at < |s| && 0 <= dot < |s| :: ServerCut(s, at, dot) {
      var at, dot :| 0 <= at < |s| && 0 <= dot < |s| && ServerCut(s, at, dot);
      var k := IndexOf(s, '@');
      if k < at {
        assert LocalAt(s, k);
      }
      var m := LastIndexOf(s, '.');
      if m > dot {
        assert LetterAt(s, m);
      }
    }
  }

  /** `s` has a `[^\s@]` character at index `i`. */
  predicate PlainAt(s: string, i: int) {
    0 <= i < |s| && PlainChar(s[i])
  }

  /** The client pattern, cut at the '@' at index `at` and the '.' at index `dot`. */
  predicate ClientCut(s: string, at: int, dot: int) {
    0 < at && at + 1 < dot && dot + 1 < |s| &&
    s[at] == '@' && s[dot] == '.' &&
    (forall i | 0 <= i < at :: PlainAt(s, i)) &&
    (forall i | at < i < dot :: PlainAt(s, i)) &&
    (forall i | dot < i < |s| :: PlainAt(s, i))
  }

  /** The email test of the signup and login forms. No piece admits '@', so the only possible cut is at
      the first '@'; any later '.' with a character on each side will do, so the first '.' after the
      character following the '@' is as good as any (ClientEmailOkIff). */
  predicate ClientEmailOk(s: string) {
    var at := IndexOf(s, '@');
    at + 2 <= |s| && ClientCut(s, at, IndexFrom(s, '.', at + 2))
  }

  /** ClientEmailOk is the regular expression: some cut of the address fits the pattern. */
  lemma ClientEmailOkIff(s: string)
    ensures ClientEmailOk(s) <==> exists at, dot | 0 <= at < |s| && 0 <= dot < |s| :: ClientCut(s, at, dot)
  {
    var at := IndexOf(s, '@');
    if exists a, d | 0 <= a < |s| && 0 <= d < |s| :: ClientCut(s, a, d) {
      var a, d :| 0 <= a < |s| && 0 <= d < |s| && ClientCut(s, a, d);
      assert !PlainAt(s, at);
      assert at == a;
      var dot := IndexFrom(s, '.', a + 2);
      assert dot <= d;
      forall i | dot < i < |s| ensures PlainAt(s, i) {
        if i < d {
          assert a < i < d;
        } else if i == d {
          assert s[i] == '.';
        }
      }
      assert ClientCut(s, a, dot);
    }
  }

  /** An address the server accepts holds no white space, so trimming leaves it as it is: the
      existence check (which lower-cases the raw address) and the insert (which trims and then
      lower-cases it) look at the same string. */
  lemma ServerEmailNoSpace(s: string)
    requires ServerEmailOk(s)
    ensures |s| > 0 && NoSpace(s) && Trim(s) == s
  {
    var at, dot := IndexOf(s, '@'), LastIndexOf(s, '.');
    forall i | 0 <= i < |s| ensures !IsSpace(s[i]) {
      if i < at {
        assert LocalAt(s, i);
      } else if i == at || i == dot {
      } else if i < dot {
        assert DomainAt(s, i);
      } else {
        assert LetterAt(s, i);
      }
    }
    TrimNoSpace(s);
  }

  /** Every address the server accepts also passes the forms' looser test. */
  lemma ServerImpliesClient(s: string)
    requires ServerEmailOk(s)
    ensures ClientEmailOk(s)
  {
    var at, dot := IndexOf(s, '@'), LastIndexOf(s, '.');
    forall i | 0 <= i < |s| && i != at ensures PlainAt(s, i) {
      if i < at {
        assert LocalAt(s, i);
      } else if i < dot {
        assert DomainAt(s, i);
      } else if i > dot {
        assert LetterAt(s, i);
      }
    }
    assert ClientCut(s, at, dot);
    ClientEmailOkIff(s);
  }

  /** The converse fails: the forms accept a one-letter top-level domain that the server refuses. */
  lemma ClientLooserThanServer()
    ensures ClientEmailOk("a@b.c") && !ServerEmailOk("a@b.c")
  {
    assert IndexOf("a@b.c", '@') == 1;
    assert IndexFrom("a@b.c", '.', 3) == 3;
  }

  /** Lower-casing an address the server accepts gives one it still accepts. */
  lemma ServerEmailLower(s: string)
    requires ServerEmailOk(s)
    ensures ServerEmailOk(ToLower(s))
  {
    var at, dot := IndexOf(s, '@'), LastIndexOf(s, '.');
    var t := ToLower(s);
    forall i | 0 <= i < at ensures LocalAt(t, i) {
      assert LocalAt(s, i);
    }
    forall i | at < i < dot ensures DomainAt(t, i) {
      assert DomainAt(s, i);
    }
    forall i | dot < i < |t| ensures LetterAt(t, i) {
      assert LetterAt(s, i);
    }
    assert ServerCut(t, at, dot);
    ServerEmailOkIff(t);
  }
}
