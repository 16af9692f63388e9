/** The blog index (`app/components/blog/blog.tsx`): the category tabs with
    their "all" entry, the posts shown for the chosen tab, and the carousel
    of featured posts. */
module Blog {
  import opened Seqs
  import opened Data
  import opened Cyclic

  datatype BlogCategory = BlogCategory(id: string, name: string)

  /** The tab that shows every post. */
  const AllTab: BlogCategory := BlogCategory("all", "Todos")

  /** `[{ id: 'all', name: 'Todos' }, ...cats]`. */
  function PageCategories(cats: seq<BlogCategory>): (r: seq<BlogCategory>)
    ensures |r| == |cats| + 1
    ensures r[0] == AllTab && r[1..] == cats
  {
    [AllTab] + cats
  }

  /** The stat shown next to the heading: `categories.length - 1`, which
      leaves the "all" tab out and counts the loaded categories. */
  function CategoryStat(categories: seq<BlogCategory>): int
  {
    |categories| - 1
  }

  lemma CategoryStatCountsLoaded(cats: seq<BlogCategory>)
    ensures CategoryStat(PageCategories(cats)) == |cats|
  {
  }

  /** The posts whose category is named `name`. */
  function PostsNamed(posts: seq<BlogPost>, name: string): (r: seq<BlogPost>)
    ensures forall p :: p in r <==> p in posts && p.category == name
    ensures SubseqOf(r, posts)
  {
    Filter(posts, (p: BlogPost) => p.category == name)
  }

  /** `filteredPosts`: every post for the "all" tab; otherwise the posts
      whose category is the name of the first tab with the selected id,
      and none when no tab has that id. */
  function FilteredPosts(selected: string, posts: seq<BlogPost>, categories: seq<BlogCategory>): (r: seq<BlogPost>)
    ensures SubseqOf(r, posts)
    ensures selected == "all" ==> r == posts
    ensures selected != "all" && (forall i :: 0 <= i < |categories| ==> categories[i].id != selected) ==> r == []
    ensures selected != "all" ==>
              forall i :: 0 <= i < |categories| && categories[i].id == selected &&
                          (forall j :: 0 <= j < i ==> categories[j].id != selected) ==>
                (forall p :: p in r <==> p in posts && p.category == categories[i].name)
  {
    if selected == "all" then
      SubseqRefl(posts);
      posts
    else
      match FindFirst(categories, (c: BlogCategory) => c.id == selected)
      case None => []
      case Some(c) =>
        FirstIsUnique(categories, selected, c);
        PostsNamed(posts, c.name)
  }

  /** The first tab with an id is the one at the first index with it. */
  lemma FirstIsUnique(categories: seq<BlogCategory>, selected: string, c: BlogCategory)
    requires FindFirst(categories, (x: BlogCategory) => x.id == selected) == Some(c)
    ensures forall i :: (0 <= i < |categories| && categories[i].id == selected &&
                         (forall j :: 0 <= j < i ==> categories[j].id != selected)) ==> categories[i] == c
  {
    var p := (x: BlogCategory) => x.id == selected;
    var k :| 0 <= k < |categories| && categories[k] == c && p(categories[k]) &&
             forall j :: 0 <= j < k ==> !p(categories[j]);
    forall i | 0 <= i < |categories| && categories[i].id == selected &&
               (forall j :: 0 <= j < i ==> categories[j].id != selected)
      ensures categories[i] == c
    {
      assert !(i < k) && !(k < i);
    }
  }

  /** On the page's own tab list, the "all" tab shows everything and a
      loaded category shows exactly its posts, provided no loaded
      category reuses the id "all" and the ids are distinct. */
  lemma TabShowsItsPosts(cats: seq<BlogCategory>, posts: seq<BlogPost>, k: nat)
    requires k < |cats| && cats[k].id != "all"
    requires forall i, j :: 0 <= i < j < |cats| ==> cats[i].id != cats[j].id
    ensures forall p :: p in FilteredPosts(cats[k].id, posts, PageCategories(cats)) <==>
                        p in posts && p.category == cats[k].name
  {
    var tabs := PageCategories(cats);
    assert tabs[k + 1] == cats[k];
    assert forall j :: 0 <= j < k + 1 ==> tabs[j].id != cats[k].id by {
      forall j | 0 < j < k + 1 ensures tabs[j].id != cats[k].id {
        assert tabs[j] == cats[j - 1];
      }
    }
  }

  // ---------------------------------------------------------------------
  // Featured carousel

  /** The carousel is drawn when there is a featured post, and its arrows
      and dots only when there are at least two. */
  predicate ShowsCarousel(featuredCount: nat)
  {
    featuredCount > 0
  }

  predicate ShowsControls(featuredCount: nat)
  {
    featuredCount > 1
  }

  /** The arrows are drawn exactly when a step moves the slide: with a
      single featured post both steps stay where they are. */
  lemma ControlsMoveSlide(i: int, n: nat)
    requires ShowsCarousel(n) && 0 <= i < n
    ensures ShowsControls(n) <==> WrapNext(i, n) != i
    ensures ShowsControls(n) <==> WrapPrev(i, n) != i
  {
  }

  /** The page state: the loaded lists, the chosen tab and the slide. */
  class BlogPage {
    var featuredPosts: seq<BlogPost>
    var allPosts: seq<BlogPost>
    var categories: seq<BlogCategory>
    var selectedCategory: string
    var currentSlide: int

    /** The state once the data is loaded: the tabs get the "all" entry in
        front and the first tab and slide are chosen. */
    constructor (featured: seq<BlogPost>, posts: seq<BlogPost>, cats: seq<BlogCategory>)
      ensures featuredPosts == featured && allPosts == posts
      ensures categories == PageCategories(cats)
      ensures selectedCategory == "all" && currentSlide == 0
    {
      featuredPosts := featured;
      allPosts := posts;
      categories := PageCategories(cats);
      selectedCategory := "all";
      currentSlide := 0;
    }

    /** The posts listed under the tabs. */
    function Shown(): (r: seq<BlogPost>)
      reads this
      ensures SubseqOf(r, allPosts)
      ensures selectedCategory == "all" ==> r == allPosts
    {
      FilteredPosts(selectedCategory, allPosts, categories)
    }

    predicate SlideInRange()
      reads this
    {
      0 <= currentSlide < |featuredPosts|
    }

    /** A tab was clicked. */
    method SelectCategory(id: string)
      modifies this
      ensures selectedCategory == id
      ensures featuredPosts == old(featuredPosts) && allPosts == old(allPosts)
      ensures categories == old(categories) && currentSlide == old(currentSlide)
    {
      selectedCategory := id;
    }

    /** `nextSlide`: `(prev + 1) % featuredPosts.length`. */
    method NextSlide()
      requires ShowsCarousel(|featuredPosts|)
      modifies this
      ensures featuredPosts == old(featuredPosts) && allPosts == old(allPosts)
      ensures categories == old(categories) && selectedCategory == old(selectedCategory)
      ensures currentSlide == ModNext(old(currentSlide), |featuredPosts|)
      ensures old(SlideInRange()) ==> SlideInRange() && currentSlide == WrapNext(old(currentSlide), |featuredPosts|)
    {
      currentSlide := JsRem(currentSlide + 1, |featuredPosts|);
    }

    /** `prevSlide`: `(prev - 1 + featuredPosts.length) % featuredPosts.length`. */
    method PrevSlide()
      requires ShowsCarousel(|featuredPosts|)
      modifies this
      ensures featuredPosts == old(featuredPosts) && allPosts == old(allPosts)
      ensures categories == old(categories) && selectedCategory == old(selectedCategory)
      ensures currentSlide == ModPrev(old(currentSlide), |featuredPosts|)
      ensures old(SlideInRange()) ==> SlideInRange() && currentSlide == WrapPrev(old(currentSlide), |featuredPosts|)
    {
      currentSlide := JsRem(currentSlide - 1 + |featuredPosts|, |featuredPosts|);
    }

    /** A dot was clicked. */
    method GoToSlide(index: nat)
      requires index < |featuredPosts|
      modifies this
      ensures currentSlide == index && SlideInRange()
      ensures featuredPosts == old(featuredPosts) && allPosts == old(allPosts)
      ensures categories == old(categories) && selectedCategory == old(selectedCategory)
    {
      currentSlide := index;
    }
  }
}
