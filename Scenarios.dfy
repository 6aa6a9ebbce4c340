/** Clients that drive the handlers through concrete interactions and check,
    from the handlers' contracts alone, what the page then shows. */
module Scenarios {
  import opened Wrappers
  import opened Sections
  import opened NavLinks
  import opened Gestures
  import opened Controller
  import ContactForm

  /** A page with three stacked sections, a link per section and both buttons. */
  method ThreeSections() returns (c: PageController, v: Viewport)
    ensures fresh(c) && fresh(c.active) && c.Valid() && c.Fits(v)
    ensures c.sectionIds == ["home", "work", "contact"] && c.hasPrev && c.hasNext && c.hasNav && c.hasToggle
    ensures c.linkHrefs == ["#home", "#work", "#contact"]
    ensures c.currentIndex == 0 && c.touchStartX == None
    ensures v.boxes == [Box(0, 800), Box(800, 600), Box(1400, 900)] && v.headerHeight == None
  {
    var page := Page(["home", "work", "contact"], ["#home", "#work", "#contact"], [false, false, false],
                     Some(false), Some(false), Some(false), Some(false));
    c := new PageController(page);
    v := Viewport([Box(0, 800), Box(800, 600), Box(1400, 900)], None, 0, 1280);
  }

  /** At the first section, "previous" stays there and leaves the prev button hidden. */
  method PreviousAtFirstSection()
  {
    var c, v := ThreeSections();
    var ok := c.GoToIndex(0, v);
    c.OnPrevClick(v);
    assert c.currentIndex == 0 && c.prevHidden && !c.nextHidden;
    assert c.scrolls[|c.scrolls| - 1] == ScrollTo(0 - 72 + 4);
  }

  /** Stepping past the last section saturates instead of wrapping. */
  method NextAtLastSection()
  {
    var c, v := ThreeSections();
    c.OnKeyDown("ArrowRight", v);
    c.OnKeyDown("ArrowRight", v);
    c.OnKeyDown("ArrowRight", v);
    assert c.currentIndex == 2 && c.nextHidden && !c.prevHidden;
    c.OnKeyDown("Enter", v);
    assert c.currentIndex == 2;
  }

  /** A leftward swipe of 60px advances one section; one of 30px does nothing but clear the start point. */
  method Swipes()
  {
    var c, v := ThreeSections();
    c.OnTouchStart(300, 500);
    c.OnTouchEnd(240, 510, v);
    assert ClassifySwipe(-60, 10) == Next;
    assert c.currentIndex == 1 && c.touchStartX == None;
    c.OnTouchStart(300, 500);
    c.OnTouchEnd(330, 500, v);
    assert ClassifySwipe(30, 0) == Ignored;
    assert c.currentIndex == 1 && c.touchStartX == None;
    c.OnTouchEnd(0, 0, v);
    assert c.currentIndex == 1;
  }

  /** `#0` is a placeholder: no navigation and no prevented default. */
  method PlaceholderLink()
  {
    var c, v := ThreeSections();
    var prevented := c.OnClick(Some("#0"), true, v);
    assert !prevented && c.currentIndex == 0;
  }

  /** A section link on a narrow viewport navigates and closes the menu. */
  method SectionLinkOnPhone()
  {
    var c, v := ThreeSections();
    assert "#" + c.sectionIds[2] == "#contact";
    IdIndexLookup(c.sectionIds, "#contact");
    var phone := v.(width := 390);
    var prevented := c.OnClick(Some("#contact"), true, phone);
    assert prevented && c.currentIndex == 2;
    assert c.navHidden && !c.expanded;
  }

  /** Scrolling into the middle section makes it current and marks its link. */
  method ScrollIntoMiddle()
  {
    var c, v := ThreeSections();
    var scrolled := v.(scrollY := 1000);
    assert Stacked(scrolled.boxes);
    InsideSectionSelectsIt(scrolled.boxes, ProbeOf(scrolled), 1);
    c.OnLoad(scrolled);
    assert c.currentIndex == 1;
    assert "#" + c.sectionIds[1] == "#work";
    IdIndexLookup(c.sectionIds, "#work");
    assert LinksTo(c.linkHrefs[1], c.idToIndex, 1);
    assert c.active[1];
  }

  /** Once the links show the current index, running `updateActiveNav` again changes none of them. */
  method ActiveNavIdempotent(c: PageController)
    requires c.Valid() && c.ActiveSynced()
    modifies c.active
    ensures c.active[..] == old(c.active[..])
  {
    c.UpdateActiveNav();
  }

  /** A message of whitespace only is refused, and the form keeps what was typed. */
  method BlankMessageRefused()
  {
    var form := new ContactForm.Form(("", "", ""), true, "", false);
    form.Fill("Ada", "ada@example.org", " \n ");
    assert ContactForm.AllWhitespace(form.message) by {
      assert ContactForm.IsJsWhitespace(' ') && ContactForm.IsJsWhitespace('\n');
    }
    var _ := form.Submit();
    assert form.status == ContactForm.ErrorText && form.statusIsError && form.message == " \n ";
  }

  /** A complete submission is accepted and the form is reset to its defaults. */
  method CompleteFormAccepted()
  {
    var form := new ContactForm.Form(("", "", ""), true, "", false);
    form.Fill("Ada", "ada@example.org", "Hello");
    assert !ContactForm.AllWhitespace(form.name) && !ContactForm.AllWhitespace(form.email)
        && !ContactForm.AllWhitespace(form.message) by {
      assert !ContactForm.IsJsWhitespace('A') && !ContactForm.IsJsWhitespace('a') && !ContactForm.IsJsWhitespace('H');
      assert form.name[0] == 'A' && form.email[0] == 'a' && form.message[0] == 'H';
    }
    var _ := form.Submit();
    assert form.status == ContactForm.SuccessText && form.name == "" && form.message == "";
  }
}
