/** The character-pool estimator of script.js (`poolSizeForPassword`): the
    number of symbols a guesser would have to try per position, estimated
    from which of four character classes occur in the password. */
module CharacterPool {
  import opened Password

  /** The four classes tested by the regular expressions /[a-z]/, /[A-Z]/,
      /[0-9]/ and /[^A-Za-z0-9]/. */
  datatype CharClass = Lower | Upper | Digit | Symbol

  predicate IsLower(c: CodeUnit) { 'a' as int <= c <= 'z' as int }
  predicate IsUpper(c: CodeUnit) { 'A' as int <= c <= 'Z' as int }
  predicate IsDigit(c: CodeUnit) { '0' as int <= c <= '9' as int }

  predicate InClass(k: CharClass, c: CodeUnit)
  {
    match k
    case Lower => IsLower(c)
    case Upper => IsUpper(c)
    case Digit => IsDigit(c)
    case Symbol => !IsLower(c) && !IsUpper(c) && !IsDigit(c)
  }

  /** The fixed number of symbols each class contributes; 32 for symbols is
      a deliberate approximation of the printable punctuation. */
  function ClassSize(k: CharClass): nat
  {
    match k
    case Lower => 26
    case Upper => 26
    case Digit => 10
    case Symbol => 32
  }

  /** The class a code unit falls into. */
  function ClassOf(c: CodeUnit): (k: CharClass)
    ensures InClass(k, c)
    ensures forall k' :: InClass(k', c) ==> k' == k
  {
    if IsLower(c) then Lower
    else if IsUpper(c) then Upper
    else if IsDigit(c) then Digit
    else Symbol
  }

  /** Does some character of pw belong to class k (the regex test)? */
  ghost predicate Has(pw: Pwd, k: CharClass)
  {
    exists i :: 0 <= i < |pw| && InClass(k, pw[i])
  }

  /** The pool size: the sum of the sizes of the classes present. */
  ghost function PoolOf(pw: Pwd): nat
  {
    (if Has(pw, Lower) then ClassSize(Lower) else 0)
    + (if Has(pw, Upper) then ClassSize(Upper) else 0)
    + (if Has(pw, Digit) then ClassSize(Digit) else 0)
    + (if Has(pw, Symbol) then ClassSize(Symbol) else 0)
  }

  /** One regex test: scan pw for a member of class k, stopping at the first. */
  method TestClass(pw: Pwd, k: CharClass) returns (found: bool)
    ensures found <==> Has(pw, k)
  {
    found := false;
    for i := 0 to |pw|
      invariant forall j :: 0 <= j < i ==> !InClass(k, pw[j])
    {
      if InClass(k, pw[i]) {
        found := true;
        return;
      }
    }
  }

  /** `poolSizeForPassword`: four tests, then `size +=` per class present. */
  method PoolSizeForPassword(pw: Pwd) returns (size: nat)
    ensures size == PoolOf(pw)
    ensures size == 0 <==> |pw| == 0
    ensures size <= 94
  {
    var hasLower := TestClass(pw, Lower);
    var hasUpper := TestClass(pw, Upper);
    var hasDigit := TestClass(pw, Digit);
    var hasSymbol := TestClass(pw, Symbol);
    size := 0;
    if hasLower { size := size + 26; }
    if hasUpper { size := size + 26; }
    if hasDigit { size := size + 10; }
    if hasSymbol { size := size + 32; }
    PoolIsZeroOnlyWhenEmpty(pw);
  }

  /** The pool is empty exactly for the empty password: every code unit
      falls into one of the four classes. */
  lemma PoolIsZeroOnlyWhenEmpty(pw: Pwd)
    ensures PoolOf(pw) == 0 <==> |pw| == 0
    ensures PoolOf(pw) <= 94
  {
    if |pw| > 0 {
      var k := ClassOf(pw[0]);
      assert InClass(k, pw[0]);
      assert Has(pw, k);
    }
  }

  /** Every pool size is one of the twelve sums of distinct class sizes. */
  lemma PoolValues(pw: Pwd)
    ensures PoolOf(pw) in {0, 10, 26, 32, 36, 42, 52, 58, 62, 68, 84, 94}
  {
  }

  /** The pool of a password is determined by the classes it uses: two
      passwords drawing on the same classes get the same pool, and a
      password using a class the other lacks has a strictly larger pool
      when it uses every class the other does. */
  lemma PoolGrowsWithClasses(p: Pwd, q: Pwd)
    requires forall k :: Has(p, k) ==> Has(q, k)
    ensures PoolOf(p) <= PoolOf(q)
    ensures (exists k :: Has(q, k) && !Has(p, k)) ==> PoolOf(p) < PoolOf(q)
  {
  }
}
