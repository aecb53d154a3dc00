/** Properties of the debug renderings of the syntax tree. */
module AstLaws {
  import opened Ast

  /** `term(input)`, `term(int(v))` and `term(ident(x))` never coincide, and
      each gives back the text it carries. */
  lemma TermStringInjective(a: Term, b: Term)
    ensures TermString(a) == TermString(b) ==> a == b
  {
    var s, t := TermString(a), TermString(b);
    if a != b {
      if a.InputTerm? || b.InputTerm? {
        assert s[7] != t[7];
      } else if a.IntTerm? != b.IntTerm? {
        assert s[6] != t[6];
      } else if a.IntTerm? {
        assert s[9..|s| - 2] == a.val && t[9..|t| - 2] == b.val;
      } else {
        assert s[11..|s| - 2] == a.name && t[11..|t| - 2] == b.name;
      }
    }
  }
}
