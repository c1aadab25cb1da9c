/** The category screen's pure helpers (adminpanel/src/CategoryPage.jsx): the
    keyword-based icon of a category and the search box's filter. Text matching
    is on ASCII case only. */
module CategoryPage {
  import opened Records
  import opened Text
  import CategoryController

  /** The icons getInternalIcon can show; `Plate` is the fallback. */
  datatype Icon = Burger | Pizza | Pasta | Taco | Salad | Sushi | Cake | Drink | IceCream | Donut | Plate

  /** A group of keywords and the icon they select. */
  datatype IconRule = IconRule(keywords: seq<string>, icon: Icon)

  /** The rules of getInternalIcon as a table, in the order they are tried. */
  const IconRules: seq<IconRule> := [
    IconRule(["burger"], Burger),
    IconRule(["pizza"], Pizza),
    IconRule(["pasta", "italian"], Pasta),
    IconRule(["taco", "mexican"], Taco),
    IconRule(["salad", "healthy"], Salad),
    IconRule(["sushi", "japanese"], Sushi),
    IconRule(["cake", "sweet", "dessert"], Cake),
    IconRule(["drink", "beverage", "coffee"], Drink),
    IconRule(["ice cream"], IceCream),
    IconRule(["donut"], Donut)
  ]

  /** Some keyword of `keywords` occurs in `text`. */
  predicate Mentions(text: string, keywords: seq<string>)
  {
    exists k :: 0 <= k < |keywords| && Contains(text, keywords[k])
  }

  /** The icon of the first rule that `text` mentions, or the plate. */
  function FirstMatch(text: string, rules: seq<IconRule>): Icon
  {
    if rules == [] then Plate
    else if Mentions(text, rules[0].keywords) then rules[0].icon
    else FirstMatch(text, rules[1..])
  }

  /** getInternalIcon: the name is lower-cased, then the rules are tried top to
      bottom and the first one with a keyword in the name decides. */
  function InternalIcon(name: string): Icon
  {
    FirstMatch(ToLower(name), IconRules)
  }

  /** The rule the first match comes from: it is mentioned and no earlier rule is;
      the plate means no rule is mentioned at all. */
  lemma {:induction false} FirstMatchMeaning(text: string, rules: seq<IconRule>)
    requires forall k :: 0 <= k < |rules| ==> rules[k].icon != Plate
    ensures FirstMatch(text, rules) == Plate <==> forall k :: 0 <= k < |rules| ==> !Mentions(text, rules[k].keywords)
    ensures FirstMatch(text, rules) != Plate ==>
      exists k :: 0 <= k < |rules| && rules[k].icon == FirstMatch(text, rules) &&
        Mentions(text, rules[k].keywords) &&
        forall j :: 0 <= j < k ==> !Mentions(text, rules[j].keywords)
  {
    if rules != [] {
      FirstMatchMeaning(text, rules[1..]);
      if !Mentions(text, rules[0].keywords) {
        if FirstMatch(text, rules) != Plate {
          var k :| 0 <= k < |rules[1..]| && rules[1..][k].icon == FirstMatch(text, rules) &&
            Mentions(text, rules[1..][k].keywords) &&
            forall j :: 0 <= j < k ==> !Mentions(text, rules[1..][j].keywords);
          assert rules[k + 1] == rules[1..][k];
          forall j | 0 <= j < k + 1 ensures !Mentions(text, rules[j].keywords) {
            if j > 0 {
              assert rules[j] == rules[1..][j - 1];
            }
          }
        } else {
          forall k | 0 <= k < |rules| ensures !Mentions(text, rules[k].keywords) {
            if k > 0 {
              assert rules[k] == rules[1..][k - 1];
            }
          }
        }
      } else {
        assert rules[0].icon != Plate;
      }
    }
  }

  /** A rule that is mentioned, after rules that are not, gives the icon. */
  lemma {:induction false} FirstMatchAt(text: string, rules: seq<IconRule>, k: nat)
    requires k < |rules| && Mentions(text, rules[k].keywords)
    requires forall j :: 0 <= j < k ==> !Mentions(text, rules[j].keywords)
    ensures FirstMatch(text, rules) == rules[k].icon
  {
    if k > 0 {
      assert rules[1..][k - 1] == rules[k];
      forall j | 0 <= j < k - 1 ensures !Mentions(text, rules[1..][j].keywords) {
        assert rules[1..][j] == rules[j + 1];
      }
      FirstMatchAt(text, rules[1..], k - 1);
    }
  }

  /** The icon does not depend on the case of the name. */
  lemma IconIgnoresCase(name: string)
    ensures InternalIcon(ToLower(name)) == InternalIcon(name)
    ensures InternalIcon(ToUpper(name)) == InternalIcon(name)
  {
    ToLowerIdempotent(name);
    LowerOfUpper(name);
  }

  /** A name that mentions the burger keyword gets the burger whatever else it says. */
  lemma BurgerComesFirst(name: string)
    requires Contains(ToLower(name), "burger")
    ensures InternalIcon(name) == Burger
  {
    assert IconRules[0].keywords[0] == "burger";
  }

  /** "ice cream" is tried after "sweet": a name that mentions both, and nothing
      of an earlier rule, shows the cake. */
  lemma SweetIceCreamIsCake(name: string)
    requires Contains(ToLower(name), "sweet") && Contains(ToLower(name), "ice cream")
    requires forall j :: 0 <= j < 6 ==> !Mentions(ToLower(name), IconRules[j].keywords)
    ensures InternalIcon(name) == Cake
  {
    assert IconRules[6].keywords[1] == "sweet";
    assert IconRules[8].keywords[0] == "ice cream";
    FirstMatchAt(ToLower(name), IconRules, 6);
  }

  /** With no keyword in the name the plate is shown. */
  lemma PlateByDefault(name: string)
    requires forall j :: 0 <= j < |IconRules| ==> !Mentions(ToLower(name), IconRules[j].keywords)
    ensures InternalIcon(name) == Plate
  {
    FirstMatchMeaning(ToLower(name), IconRules);
  }

  /** `cat.name.toLowerCase().includes(searchTerm.toLowerCase())`. */
  predicate Matches(c: CategoryController.CategoryWithCount, term: string)
  {
    Contains(ToLower(c.name), ToLower(term))
  }

  /** The categories shown for a search term, in list order. */
  function Search(cats: seq<CategoryController.CategoryWithCount>, term: string)
    : (r: seq<CategoryController.CategoryWithCount>)
    ensures forall c :: c in r <==> c in cats && Matches(c, term)
  {
    Filter(cats, (c: CategoryController.CategoryWithCount) => Matches(c, term))
  }

  /** An empty search shows every category, in order. */
  lemma EmptySearchKeepsAll(cats: seq<CategoryController.CategoryWithCount>)
    ensures Search(cats, "") == cats
  {
    forall c | c in cats ensures Matches(c, "") {
      ContainsEmpty(ToLower(c.name));
    }
    FilterAll(cats, (c: CategoryController.CategoryWithCount) => Matches(c, ""));
  }

  /** The search keeps the list's order: searching a list made of two parts
      gives the results of the first part followed by those of the second. */
  lemma SearchKeepsOrder(a: seq<CategoryController.CategoryWithCount>, b: seq<CategoryController.CategoryWithCount>,
                         term: string)
    ensures Search(a + b, term) == Search(a, term) + Search(b, term)
  {
    FilterAppend(a, b, (c: CategoryController.CategoryWithCount) => Matches(c, term));
  }

  /** The search does not depend on the case of the term. */
  lemma SearchIgnoresCase(cats: seq<CategoryController.CategoryWithCount>, term: string)
    ensures Search(cats, ToUpper(term)) == Search(cats, term)
  {
    LowerOfUpper(term);
    FilterSame(cats, (c: CategoryController.CategoryWithCount) => Matches(c, ToUpper(term)),
               (c: CategoryController.CategoryWithCount) => Matches(c, term));
  }
}
