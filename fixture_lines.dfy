/** The fixture strings of the unit tests, assembled from short steps. Each lemma states
    what appending a short piece to a known string gives; a long field is appended in
    pieces of at most ten characters, and the second half of a long line is built
    apart from its first half and joined to it once. The solver compares long string
    literals only in such short steps. */
module FixtureLines {

  /** Regrouping a concatenation of three strings. */
  lemma AppendAssoc(a: string, b: string, c: string)
    ensures a + (b + c) == (a + b) + c
  {
  }

  /** Building the bullet of the Atom item, part 1. */
  lemma AtomBulletSteps1()
    ensures "atom/keybo" + "ard-layout"
      == "atom/keyboard-layout"
    ensures "- [" + "atom/keybo"
      == "- [atom/keybo"
    ensures "- [atom/keybo" + "ard-layout"
      == "- [atom/keyboard-layout"
    ensures "- [atom/keyboard-layout" + "] [#"
      == "- [atom/keyboard-layout] [#"
    ensures "- [atom/keyboard-layout] [#" + "63"
      == "- [atom/keyboard-layout] [#63"
    ensures "- [atom/keyboard-layout] [#63" + "]("
      == "- [atom/keyboard-layout] [#63]("
    ensures "https://gi" + "thub.com/a"
      == "https://github.com/a"
  {
  }

  /** Building the bullet of the Atom item, part 2. */
  lemma AtomBulletSteps2()
    ensures "https://github.com/a" + "tom/keyboa"
      == "https://github.com/atom/keyboa"
    ensures "https://github.com/atom/keyboa" + "rd-layout/"
      == "https://github.com/atom/keyboard-layout/"
    ensures "https://github.com/atom/keyboard-layout/" + "pull/63"
      == "https://github.com/atom/keyboard-layout/pull/63"
  {
  }

  /** Building the bullet of the Atom item, part 3. */
  lemma AtomBulletSteps3()
    ensures "- [atom/keyboard-layout] [#63](" + "https://gi"
      == "- [atom/keyboard-layout] [#63](https://gi"
    ensures "- [atom/keyboard-layout] [#63](https://gi" + "thub.com/a"
      == "- [atom/keyboard-layout] [#63](https://github.com/a"
  {
  }

  /** Building the bullet of the Atom item, part 4. */
  lemma AtomBulletSteps4()
    ensures "- [atom/keyboard-layout] [#63](https://github.com/a" + "tom/keyboa"
      == "- [atom/keyboard-layout] [#63](https://github.com/atom/keyboa"
  {
  }

  /** Building the bullet of the Atom item, part 5. */
  lemma AtomBulletSteps5()
    ensures "- [atom/keyboard-layout] [#63](https://github.com/atom/keyboa" + "rd-layout/"
      == "- [atom/keyboard-layout] [#63](https://github.com/atom/keyboard-layout/"
  {
  }

  /** Building the bullet of the Atom item, part 6. */
  lemma AtomBulletSteps6()
    ensures "- [atom/keyboard-layout] [#63](https://github.com/atom/keyboard-layout/" + "pull/63"
      == "- [atom/keyboard-layout] [#63](https://github.com/atom/keyboard-layout/pull/63"
  {
  }

  /** Building the bullet of the Atom item, part 7. */
  lemma AtomBulletSteps7()
    ensures "- [atom/keyboard-layout] [#63](https://github.com/atom/keyboard-layout/pull/63" + ") "
      == "- [atom/keyboard-layout] [#63](https://github.com/atom/keyboard-layout/pull/63) "
  {
  }

  /** Building the bullet of the Atom item, part 8. */
  lemma AtomBulletSteps8()
    ensures "- [atom/keyboard-layout] [#63](https://github.com/atom/keyboard-layout/pull/63) " + "Update nan"
      == "- [atom/keyboard-layout] [#63](https://github.com/atom/keyboard-layout/pull/63) Update nan"
  {
  }

  /** Building the bullet of the Atom item, part 9. */
  lemma AtomBulletSteps9()
    ensures "- [atom/keyboard-layout] [#63](https://github.com/atom/keyboard-layout/pull/63) Update nan" + " ([@"
      == "- [atom/keyboard-layout] [#63](https://github.com/atom/keyboard-layout/pull/63) Update nan ([@"
  {
  }

  /** Building the bullet of the Atom item, part 10. */
  lemma AtomBulletSteps10()
    ensures "- [atom/keyboard-layout] [#63](https://github.com/atom/keyboard-layout/pull/63) Update nan ([@" + "mansona"
      == "- [atom/keyboard-layout] [#63](https://github.com/atom/keyboard-layout/pull/63) Update nan ([@mansona"
  {
  }

  /** Building the bullet of the Atom item, part 11. */
  lemma AtomBulletSteps11()
    ensures "- [atom/keyboard-layout] [#63](https://github.com/atom/keyboard-layout/pull/63) Update nan ([@mansona" + "])"
      == "- [atom/keyboard-layout] [#63](https://github.com/atom/keyboard-layout/pull/63) Update nan ([@mansona])"
  {
  }

  /** Building the bullet of the Ember item, part 1. */
  lemma EmberBulletSteps1()
    ensures "ember-engi" + "nes/ember-"
      == "ember-engines/ember-"
    ensures "ember-engines/ember-" + "engines"
      == "ember-engines/ember-engines"
    ensures "- [" + "ember-engi"
      == "- [ember-engi"
    ensures "- [ember-engi" + "nes/ember-"
      == "- [ember-engines/ember-"
    ensures "- [ember-engines/ember-" + "engines"
      == "- [ember-engines/ember-engines"
    ensures "- [ember-engines/ember-engines" + "] [#"
      == "- [ember-engines/ember-engines] [#"
  {
  }

  /** Building the bullet of the Ember item, part 2. */
  lemma EmberBulletSteps2()
    ensures "- [ember-engines/ember-engines] [#" + "798"
      == "- [ember-engines/ember-engines] [#798"
    ensures "- [ember-engines/ember-engines] [#798" + "]("
      == "- [ember-engines/ember-engines] [#798]("
    ensures "https://gi" + "thub.com/e"
      == "https://github.com/e"
    ensures "https://github.com/e" + "mber-engin"
      == "https://github.com/ember-engin"
  {
  }

  /** Building the bullet of the Ember item, part 3. */
  lemma EmberBulletSteps3()
    ensures "https://github.com/ember-engin" + "es/ember-e"
      == "https://github.com/ember-engines/ember-e"
    ensures "https://github.com/ember-engines/ember-e" + "ngines/pul"
      == "https://github.com/ember-engines/ember-engines/pul"
  {
  }

  /** Building the bullet of the Ember item, part 4. */
  lemma EmberBulletSteps4()
    ensures "https://github.com/ember-engines/ember-engines/pul" + "l/798"
      == "https://github.com/ember-engines/ember-engines/pull/798"
  {
  }

  /** Building the bullet of the Ember item, part 5. */
  lemma EmberBulletSteps5()
    ensures "- [ember-engines/ember-engines] [#798](" + "https://gi"
      == "- [ember-engines/ember-engines] [#798](https://gi"
  {
  }

  /** Building the bullet of the Ember item, part 6. */
  lemma EmberBulletSteps6()
    ensures "- [ember-engines/ember-engines] [#798](https://gi" + "thub.com/e"
      == "- [ember-engines/ember-engines] [#798](https://github.com/e"
  {
  }

  /** Building the bullet of the Ember item, part 7. */
  lemma EmberBulletSteps7()
    ensures "- [ember-engines/ember-engines] [#798](https://github.com/e" + "mber-engin"
      == "- [ember-engines/ember-engines] [#798](https://github.com/ember-engin"
  {
  }

  /** Building the bullet of the Ember item, part 8. */
  lemma EmberBulletSteps8()
    ensures "- [ember-engines/ember-engines] [#798](https://github.com/ember-engin" + "es/ember-e"
      == "- [ember-engines/ember-engines] [#798](https://github.com/ember-engines/ember-e"
  {
  }

  /** Building the bullet of the Ember item, part 9. */
  lemma EmberBulletSteps9()
    ensures "- [ember-engines/ember-engines] [#798](https://github.com/ember-engines/ember-e" + "ngines/pul"
      == "- [ember-engines/ember-engines] [#798](https://github.com/ember-engines/ember-engines/pul"
  {
  }

  /** Building the bullet of the Ember item, part 10. */
  lemma EmberBulletSteps10()
    ensures "- [ember-engines/ember-engines] [#798](https://github.com/ember-engines/ember-engines/pul" + "l/798"
      == "- [ember-engines/ember-engines] [#798](https://github.com/ember-engines/ember-engines/pull/798"
  {
  }

  /** Building the bullet of the Ember item, part 11. */
  lemma EmberBulletSteps11()
    ensures "Ember 4 co" + "mpatibilit"
      == "Ember 4 compatibilit"
    ensures "Ember 4 compatibilit" + "y"
      == "Ember 4 compatibility"
    ensures ") " + "Ember 4 co"
      == ") Ember 4 co"
    ensures ") Ember 4 co" + "mpatibilit"
      == ") Ember 4 compatibilit"
    ensures ") Ember 4 compatibilit" + "y"
      == ") Ember 4 compatibility"
    ensures ") Ember 4 compatibility" + " ([@"
      == ") Ember 4 compatibility ([@"
    ensures "BobrImpera" + "tor"
      == "BobrImperator"
  {
  }

  /** Building the bullet of the Ember item, part 12. */
  lemma EmberBulletSteps12()
    ensures ") Ember 4 compatibility ([@" + "BobrImpera"
      == ") Ember 4 compatibility ([@BobrImpera"
    ensures ") Ember 4 compatibility ([@BobrImpera" + "tor"
      == ") Ember 4 compatibility ([@BobrImperator"
    ensures ") Ember 4 compatibility ([@BobrImperator" + "])"
      == ") Ember 4 compatibility ([@BobrImperator])"
  {
  }

  /** Building the user line of `BobrImperator`, part 1. */
  lemma BobrImperatorLineSteps1()
    ensures "BobrImpera" + "tor"
      == "BobrImperator"
    ensures "[@" + "BobrImpera"
      == "[@BobrImpera"
    ensures "[@BobrImpera" + "tor"
      == "[@BobrImperator"
    ensures "[@BobrImperator" + "]: "
      == "[@BobrImperator]: "
    ensures "https://gi" + "thub.com/B"
      == "https://github.com/B"
    ensures "https://github.com/B" + "obrImperat"
      == "https://github.com/BobrImperat"
    ensures "https://github.com/BobrImperat" + "or"
      == "https://github.com/BobrImperator"
    ensures "[@BobrImperator]: " + "https://gi"
      == "[@BobrImperator]: https://gi"
  {
  }

  /** Building the user line of `BobrImperator`, part 2. */
  lemma BobrImperatorLineSteps2()
    ensures "[@BobrImperator]: https://gi" + "thub.com/B"
      == "[@BobrImperator]: https://github.com/B"
    ensures "[@BobrImperator]: https://github.com/B" + "obrImperat"
      == "[@BobrImperator]: https://github.com/BobrImperat"
  {
  }

  /** Building the user line of `BobrImperator`, part 3. */
  lemma BobrImperatorLineSteps3()
    ensures "[@BobrImperator]: https://github.com/BobrImperat" + "or"
      == "[@BobrImperator]: https://github.com/BobrImperator"
  {
  }

  /** Building the user line of `mansona`, part 1. */
  lemma MansonaLineSteps1()
    ensures "[@" + "mansona"
      == "[@mansona"
    ensures "[@mansona" + "]: "
      == "[@mansona]: "
    ensures "https://gi" + "thub.com/m"
      == "https://github.com/m"
    ensures "https://github.com/m" + "ansona"
      == "https://github.com/mansona"
    ensures "[@mansona]: " + "https://gi"
      == "[@mansona]: https://gi"
    ensures "[@mansona]: https://gi" + "thub.com/m"
      == "[@mansona]: https://github.com/m"
    ensures "[@mansona]: https://github.com/m" + "ansona"
      == "[@mansona]: https://github.com/mansona"
  {
  }

  /** Building the repository line of `atom/keyboard-layout`, part 1. */
  lemma AtomRepositoryLineSteps1()
    ensures "atom/keybo" + "ard-layout"
      == "atom/keyboard-layout"
    ensures "[" + "atom/keybo"
      == "[atom/keybo"
    ensures "[atom/keybo" + "ard-layout"
      == "[atom/keyboard-layout"
    ensures "[atom/keyboard-layout" + "]: "
      == "[atom/keyboard-layout]: "
    ensures "https://gi" + "thub.com/a"
      == "https://github.com/a"
    ensures "https://github.com/a" + "tom/keyboa"
      == "https://github.com/atom/keyboa"
  {
  }

  /** Building the repository line of `atom/keyboard-layout`, part 2. */
  lemma AtomRepositoryLineSteps2()
    ensures "https://github.com/atom/keyboa" + "rd-layout"
      == "https://github.com/atom/keyboard-layout"
    ensures "[atom/keyboard-layout]: " + "https://gi"
      == "[atom/keyboard-layout]: https://gi"
    ensures "[atom/keyboard-layout]: https://gi" + "thub.com/a"
      == "[atom/keyboard-layout]: https://github.com/a"
  {
  }

  /** Building the repository line of `atom/keyboard-layout`, part 3. */
  lemma AtomRepositoryLineSteps3()
    ensures "[atom/keyboard-layout]: https://github.com/a" + "tom/keyboa"
      == "[atom/keyboard-layout]: https://github.com/atom/keyboa"
  {
  }

  /** Building the repository line of `atom/keyboard-layout`, part 4. */
  lemma AtomRepositoryLineSteps4()
    ensures "[atom/keyboard-layout]: https://github.com/atom/keyboa" + "rd-layout"
      == "[atom/keyboard-layout]: https://github.com/atom/keyboard-layout"
  {
  }

  /** Building the repository line of `ember-engines/ember-engines`, part 1. */
  lemma EmberRepositoryLineSteps1()
    ensures "ember-engi" + "nes/ember-"
      == "ember-engines/ember-"
    ensures "ember-engines/ember-" + "engines"
      == "ember-engines/ember-engines"
    ensures "[" + "ember-engi"
      == "[ember-engi"
    ensures "[ember-engi" + "nes/ember-"
      == "[ember-engines/ember-"
    ensures "[ember-engines/ember-" + "engines"
      == "[ember-engines/ember-engines"
    ensures "[ember-engines/ember-engines" + "]: "
      == "[ember-engines/ember-engines]: "
    ensures "https://gi" + "thub.com/e"
      == "https://github.com/e"
  {
  }

  /** Building the repository line of `ember-engines/ember-engines`, part 2. */
  lemma EmberRepositoryLineSteps2()
    ensures "https://github.com/e" + "mber-engin"
      == "https://github.com/ember-engin"
    ensures "https://github.com/ember-engin" + "es/ember-e"
      == "https://github.com/ember-engines/ember-e"
    ensures "https://github.com/ember-engines/ember-e" + "ngines"
      == "https://github.com/ember-engines/ember-engines"
  {
  }

  /** Building the repository line of `ember-engines/ember-engines`, part 3. */
  lemma EmberRepositoryLineSteps3()
    ensures "[ember-engines/ember-engines]: " + "https://gi"
      == "[ember-engines/ember-engines]: https://gi"
    ensures "[ember-engines/ember-engines]: https://gi" + "thub.com/e"
      == "[ember-engines/ember-engines]: https://github.com/e"
  {
  }

  /** Building the repository line of `ember-engines/ember-engines`, part 4. */
  lemma EmberRepositoryLineSteps4()
    ensures "[ember-engines/ember-engines]: https://github.com/e" + "mber-engin"
      == "[ember-engines/ember-engines]: https://github.com/ember-engin"
  {
  }

  /** Building the repository line of `ember-engines/ember-engines`, part 5. */
  lemma EmberRepositoryLineSteps5()
    ensures "[ember-engines/ember-engines]: https://github.com/ember-engin" + "es/ember-e"
      == "[ember-engines/ember-engines]: https://github.com/ember-engines/ember-e"
  {
  }

  /** Building the repository line of `ember-engines/ember-engines`, part 6. */
  lemma EmberRepositoryLineSteps6()
    ensures "[ember-engines/ember-engines]: https://github.com/ember-engines/ember-e" + "ngines"
      == "[ember-engines/ember-engines]: https://github.com/ember-engines/ember-engines"
  {
  }
}
