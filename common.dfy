/** Vocabulary shared by every module of the model: optional values, results,
    abstract timestamps and the ASCII lower-casing the role checks use. */
module Common {

  datatype Option<T> = None | Some(value: T)

  datatype Result<T, E> = Success(value: T) | Failure(error: E)

  /** The errors the database layer raises: a violated unique, not-null or
      foreign-key constraint; a save with `update_fields` that matched no row;
      a `get` that matched several rows. */
  datatype DbError = IntegrityError | DatabaseError | MultipleObjectsReturned

  /** A database timestamp. Only equality and order matter to the model. */
  type Time = int

  /** Python truthiness of an optional string: `None` and `''` are falsy. */
  predicate Filled(s: Option<string>)
  {
    s.Some? && s.value != ""
  }

  function LowerChar(c: char): (r: char)
    ensures 'A' <= c <= 'Z' ==> 'a' <= r <= 'z' && r as int == c as int + 32
    ensures !('A' <= c <= 'Z') ==> r == c
  {
    if 'A' <= c <= 'Z' then (c as int + 32) as char else c
  }

  /** A non-empty set has an element. */
  lemma NonEmptyHasMember(s: set<int>)
    requires s != {}
    ensures exists x :: x in s
  {
    if forall x :: x !in s {
      assert false;
    }
  }

  /** `s.lower()` restricted to ASCII letters. */
  function Lower(s: string): (r: string)
    ensures |r| == |s|
    ensures forall i :: 0 <= i < |s| ==> r[i] == LowerChar(s[i])
  {
    seq(|s|, i requires 0 <= i < |s| => LowerChar(s[i]))
  }

  /** `s.lower() == 'admin'`, the comparison every role check performs. */
  predicate IsAdminName(s: string)
  {
    Lower(s) == "admin"
  }

  /** Lower-casing is idempotent, so a name and its lower-cased form are
      judged alike. */
  lemma LowerIdempotent(s: string)
    ensures Lower(Lower(s)) == Lower(s)
  {
    assert forall i :: 0 <= i < |s| ==> LowerChar(LowerChar(s[i])) == LowerChar(s[i]);
  }

  /** The admin comparison is case-insensitive: it sees only the lower-cased name. */
  lemma AdminNameCaseInsensitive(s: string, t: string)
    requires Lower(s) == Lower(t)
    ensures IsAdminName(s) <==> IsAdminName(t)
  {
  }

  /** Exactly the five-letter spellings of "admin" in any letter case pass. */
  lemma AdminNameSpelling(s: string)
    ensures IsAdminName(s) <==>
      |s| == 5 && s[0] in {'a', 'A'} && s[1] in {'d', 'D'} && s[2] in {'m', 'M'}
      && s[3] in {'i', 'I'} && s[4] in {'n', 'N'}
  {
    if IsAdminName(s) {
      var l := Lower(s);
      assert l[0] == 'a' && l[1] == 'd' && l[2] == 'm' && l[3] == 'i' && l[4] == 'n';
    }
  }
}
