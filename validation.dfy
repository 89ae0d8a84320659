/** What a FluentValidation validator reports: one failure per rule that
    does not hold, naming the property and carrying the rule's message. */
module Validation {

  /** The command properties the rules are declared for. */
  datatype Property = IdField | TitleField | DescriptionField | PriorityField | DueDateField | StatusField

  datatype ValidationFailure = ValidationFailure(property: Property, errorMessage: string)

  /** Some failure concerns the property `name`. */
  predicate HasErrorOn(fs: seq<ValidationFailure>, name: Property) {
    exists i | 0 <= i < |fs| :: fs[i].property == name
  }

  /** One rule: no failure when it holds, otherwise one failure. */
  function Rule(holds: bool, property: Property, message: string): (fs: seq<ValidationFailure>)
    ensures HasErrorOn(fs, property) <==> !holds
    ensures forall i | 0 <= i < |fs| :: fs[i].property == property
  {
    if holds then []
    else
      var fs := [ValidationFailure(property, message)];
      assert fs[0].property == property;
      fs
  }

  lemma HasErrorOnConcat(a: seq<ValidationFailure>, b: seq<ValidationFailure>, name: Property)
    ensures HasErrorOn(a + b, name) <==> HasErrorOn(a, name) || HasErrorOn(b, name)
  {
    if HasErrorOn(a + b, name) {
      var i :| 0 <= i < |a + b| && (a + b)[i].property == name;
      if i >= |a| { assert b[i - |a|] == (a + b)[i]; }
    }
    if HasErrorOn(a, name) {
      var i :| 0 <= i < |a| && a[i].property == name;
      assert (a + b)[i] == a[i];
    }
    if HasErrorOn(b, name) {
      var i :| 0 <= i < |b| && b[i].property == name;
      assert (a + b)[|a| + i] == b[i];
    }
  }

  /** A list of failures is empty exactly when no property has one. */
  lemma EmptyIffNoErrors(fs: seq<ValidationFailure>)
    ensures fs == [] <==>
              && !HasErrorOn(fs, IdField) && !HasErrorOn(fs, TitleField)
              && !HasErrorOn(fs, DescriptionField) && !HasErrorOn(fs, PriorityField)
              && !HasErrorOn(fs, DueDateField) && !HasErrorOn(fs, StatusField)
  {
    if fs != [] {
      assert HasErrorOn(fs, fs[0].property);
    }
  }

  /** HasErrorOnConcat for every property name at once. */
  lemma HasErrorOnAppend(a: seq<ValidationFailure>, b: seq<ValidationFailure>)
    ensures forall name :: HasErrorOn(a + b, name) <==> HasErrorOn(a, name) || HasErrorOn(b, name)
  {
    forall name ensures HasErrorOn(a + b, name) <==> HasErrorOn(a, name) || HasErrorOn(b, name) {
      HasErrorOnConcat(a, b, name);
    }
  }

  /** All failures of `fs` concern `p`. */
  predicate AllOn(fs: seq<ValidationFailure>, p: Property) {
    forall i | 0 <= i < |fs| :: fs[i].property == p
  }

  lemma HasErrorOnUniform(fs: seq<ValidationFailure>, p: Property, q: Property)
    requires AllOn(fs, p)
    ensures HasErrorOn(fs, q) <==> fs != [] && p == q
  {
    if fs != [] && p == q { assert fs[0].property == q; }
  }

  /** The failures of rule chains for four different properties, listed one
      chain after another: each property has a failure exactly when its own
      chain has one, and no other property is reported. */
  lemma FourChains(a: seq<ValidationFailure>, b: seq<ValidationFailure>,
                   c: seq<ValidationFailure>, d: seq<ValidationFailure>,
                   pa: Property, pb: Property, pc: Property, pd: Property)
    requires AllOn(a, pa) && AllOn(b, pb) && AllOn(c, pc) && AllOn(d, pd)
    requires pa != pb && pa != pc && pa != pd && pb != pc && pb != pd && pc != pd
    ensures forall q :: HasErrorOn(a + b + c + d, q) <==>
              (a != [] && q == pa) || (b != [] && q == pb) || (c != [] && q == pc) || (d != [] && q == pd)
  {
    forall q ensures HasErrorOn(a + b + c + d, q) <==>
              (a != [] && q == pa) || (b != [] && q == pb) || (c != [] && q == pc) || (d != [] && q == pd)
    {
      HasErrorOnConcat(a, b, q);
      HasErrorOnConcat(a + b, c, q);
      HasErrorOnConcat(a + b + c, d, q);
      HasErrorOnUniform(a, pa, q);
      HasErrorOnUniform(b, pb, q);
      HasErrorOnUniform(c, pc, q);
      HasErrorOnUniform(d, pd, q);
    }
  }
}
