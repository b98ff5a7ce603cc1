/** The text of `BASE_PROMPT`, the template the route fills in: a request for
    a product description, seven numbered items, two instructions, a
    `Title:`/`Raw Info:`/`Brand:` block holding the three placeholders, and a
    closing instruction on the output's structure. Lines are written in short
    pieces so that the verifier can check, piece by piece, that no `{` occurs
    before the first placeholder. */
module PromptTemplate {

  /** The opening request. */
  const Request :=
    "Generate a detailed"
    + " HTML product"
    + " description for a"
    + " WooCommerce product"
    + " page. The product"
    + " is a high-end"
    + " designer mirror."
    + " The content should"
    + " include:"

  /** Item 1 of the requested content. */
  const Overview :=
    "1. Product Overview"
    + " \U{2013} a paragraph"
    + " highlighting the"
    + " product\U{2019}s design,"
    + " functionality, and"
    + " materials."

  /** Item 2 of the requested content. */
  const KeyFeatures :=
    "2. Key Features \U{2013} a"
    + " bullet list of key"
    + " product features"
    + " such as materials,"
    + " mounting options,"
    + " and safety"
    + " enhancements."

  /** Item 3 of the requested content. */
  const AdditionalInformation :=
    "3. Additional"
    + " Information \U{2013}"
    + " covering design"
    + " details, usability,"
    + " maintenance, and"
    + " safety features."

  /** Item 4 of the requested content. */
  const SpecificationsTable :=
    "4. Specifications"
    + " Table \U{2013} presented"
    + " in an HTML <table>,"
    + " listing dimensions,"
    + " glass thickness,"
    + " weight, finish"
    + " options, and"
    + " warranty."

  /** Item 5 of the requested content. */
  const Guarantee :=
    "5. Guarantee \U{2013} a"
    + " short paragraph on"
    + " warranty and"
    + " customer support."

  /** Item 6 of the requested content. */
  const IncludedItems :=
    "6. Included Items \U{2013}"
    + " a bullet list of"
    + " items included in"
    + " the box."

  /** Item 7 of the requested content. */
  const AboutTheBrand :=
    "7. About the Brand \U{2013}"
    + " a final paragraph"
    + " describing the"
    + " brand\U{2019}s identity,"
    + " craftsmanship, and"
    + " design philosophy."

  /** The numbering instruction (the template keeps its trailing space). */
  const Numbering :=
    "add numbers to the"
    + " headings. "

  /** The heading-tag instruction. */
  const Tagging :=
    "For each of the"
    + " above points use an"
    + " H1 or H2 tag for"
    + " headings, and"
    + " ensure the content"
    + " is structured with"
    + " appropriate HTML"
    + " tags."

  /** The line that introduces the product details. */
  const DetailsLead :=
    "Following are the"
    + " details about the"
    + " product:"

  /** The closing instruction, after the placeholders. */
  const Structure :=
    "Structure the output using semantic HTML, using appropriate tags like <p>, <ul>, <li>, "
    + "<table>, <thead>, <tbody>, and <strong> where needed. Do not include any styling "
    + "(no inline CSS). Only return the raw HTML content, no extra explanations."

  const TitleSlot := "{title}"
  const RawInfoSlot := "{raw_info}"
  const BrandSlot := "{brand}"
  const TitleLabel := "\nTitle: "
  const RawInfoLabel := "\nRaw Info: "
  const BrandLabel := "\nBrand: "

  /** Items 1 to 3, one per line. */
  const FirstItems := Overview + "\n" + KeyFeatures + "\n" + AdditionalInformation

  /** Items 4 to 7, one per line. */
  const LastItems := SpecificationsTable + "\n" + Guarantee + "\n" + IncludedItems + "\n" + AboutTheBrand

  /** The template up to the `{title}` placeholder. */
  const PromptHead :=
    (Request + "\n\n" + (FirstItems + "\n" + LastItems))
    + ("\n\n" + (Numbering + "\n" + Tagging) + "\n\n")
    + (DetailsLead + TitleLabel)

  /** The template after the `{brand}` placeholder. */
  const PromptTail := "\n\n" + Structure

  /** `BASE_PROMPT`: each placeholder occurs once, on its own labelled line. */
  const BasePrompt :=
    PromptHead + TitleSlot + RawInfoLabel + RawInfoSlot + BrandLabel + BrandSlot + PromptTail

  /** No placeholder starts before `{title}`. */
  lemma HeadHasNoBrace()
    ensures '{' !in PromptHead
  {
    assert '{' !in "\n" && '{' !in "\n\n" && '{' !in TitleLabel;
    assert '{' !in FirstItems by {
      OverviewHasNoBrace();
      KeyFeaturesHasNoBrace();
      AdditionalInformationHasNoBrace();
      NoBrace5(Overview, "\n", KeyFeatures, "\n", AdditionalInformation);
    }
    assert '{' !in LastItems by {
      SpecificationsTableHasNoBrace();
      GuaranteeHasNoBrace();
      IncludedItemsHasNoBrace();
      AboutTheBrandHasNoBrace();
      NoBrace5(SpecificationsTable, "\n", Guarantee, "\n", IncludedItems);
      NoBrace3(SpecificationsTable + "\n" + Guarantee + "\n" + IncludedItems, "\n", AboutTheBrand);
    }
    assert '{' !in Request + "\n\n" + (FirstItems + "\n" + LastItems) by {
      RequestHasNoBrace();
      NoBrace3(FirstItems, "\n", LastItems);
      NoBrace3(Request, "\n\n", FirstItems + "\n" + LastItems);
    }
    assert '{' !in "\n\n" + (Numbering + "\n" + Tagging) + "\n\n" by {
      NumberingHasNoBrace();
      TaggingHasNoBrace();
      NoBrace3(Numbering, "\n", Tagging);
      NoBrace3("\n\n", Numbering + "\n" + Tagging, "\n\n");
    }
    assert '{' !in DetailsLead + TitleLabel by {
      DetailsLeadHasNoBrace();
      NoBrace3(DetailsLead, TitleLabel, []);
      assert DetailsLead + TitleLabel + [] == DetailsLead + TitleLabel;
    }
    NoBrace3(Request + "\n\n" + (FirstItems + "\n" + LastItems),
             "\n\n" + (Numbering + "\n" + Tagging) + "\n\n",
             DetailsLead + TitleLabel);
  }

  /** A concatenation of brace-free texts is brace-free. */
  lemma NoBrace3(a: string, b: string, c: string)
    requires '{' !in a && '{' !in b && '{' !in c
    ensures '{' !in a + b + c
  {
  }

  /** The same for five texts. */
  lemma NoBrace5(a: string, b: string, c: string, d: string, e: string)
    requires '{' !in a && '{' !in b && '{' !in c && '{' !in d && '{' !in e
    ensures '{' !in a + b + c + d + e
  {
  }

  // The lemmas below check one line of the template at a time, and within a
  // line one short piece at a time: the verifier checks `'{' !in` on a
  // literal character by character, at a cost that grows quickly with the
  // literal's length, so a whole line at once is beyond its budget.

  lemma RequestHasNoBrace()
    ensures '{' !in Request
  {
    Request1();
    Request2();
    Request3();
    Request4();
    Request5();
    Request6();
    Request7();
    Request8();
    Request9();
  }

  lemma Request1()
    ensures '{' !in "Generate a detailed"
  {
  }

  lemma Request2()
    ensures '{' !in " HTML product"
  {
  }

  lemma Request3()
    ensures '{' !in " description for a"
  {
  }

  lemma Request4()
    ensures '{' !in " WooCommerce product"
  {
  }

  lemma Request5()
    ensures '{' !in " page. The product"
  {
  }

  lemma Request6()
    ensures '{' !in " is a high-end"
  {
  }

  lemma Request7()
    ensures '{' !in " designer mirror."
  {
  }

  lemma Request8()
    ensures '{' !in " The content should"
  {
  }

  lemma Request9()
    ensures '{' !in " include:"
  {
  }

  lemma OverviewHasNoBrace()
    ensures '{' !in Overview
  {
    Overview1();
    Overview2();
    Overview3();
    Overview4();
    Overview5();
    Overview6();
  }

  lemma Overview1()
    ensures '{' !in "1. Product Overview"
  {
  }

  lemma Overview2()
    ensures '{' !in " \U{2013} a paragraph"
  {
  }

  lemma Overview3()
    ensures '{' !in " highlighting the"
  {
  }

  lemma Overview4()
    ensures '{' !in " product\U{2019}s design,"
  {
  }

  lemma Overview5()
    ensures '{' !in " functionality, and"
  {
  }

  lemma Overview6()
    ensures '{' !in " materials."
  {
  }

  lemma KeyFeaturesHasNoBrace()
    ensures '{' !in KeyFeatures
  {
    KeyFeatures1();
    KeyFeatures2();
    KeyFeatures3();
    KeyFeatures4();
    KeyFeatures5();
    KeyFeatures6();
    KeyFeatures7();
  }

  lemma KeyFeatures1()
    ensures '{' !in "2. Key Features \U{2013} a"
  {
  }

  lemma KeyFeatures2()
    ensures '{' !in " bullet list of key"
  {
  }

  lemma KeyFeatures3()
    ensures '{' !in " product features"
  {
  }

  lemma KeyFeatures4()
    ensures '{' !in " such as materials,"
  {
  }

  lemma KeyFeatures5()
    ensures '{' !in " mounting options,"
  {
  }

  lemma KeyFeatures6()
    ensures '{' !in " and safety"
  {
  }

  lemma KeyFeatures7()
    ensures '{' !in " enhancements."
  {
  }

  lemma AdditionalInformationHasNoBrace()
    ensures '{' !in AdditionalInformation
  {
    AdditionalInformation1();
    AdditionalInformation2();
    AdditionalInformation3();
    AdditionalInformation4();
    AdditionalInformation5();
    AdditionalInformation6();
  }

  lemma AdditionalInformation1()
    ensures '{' !in "3. Additional"
  {
  }

  lemma AdditionalInformation2()
    ensures '{' !in " Information \U{2013}"
  {
  }

  lemma AdditionalInformation3()
    ensures '{' !in " covering design"
  {
  }

  lemma AdditionalInformation4()
    ensures '{' !in " details, usability,"
  {
  }

  lemma AdditionalInformation5()
    ensures '{' !in " maintenance, and"
  {
  }

  lemma AdditionalInformation6()
    ensures '{' !in " safety features."
  {
  }

  lemma SpecificationsTableHasNoBrace()
    ensures '{' !in SpecificationsTable
  {
    SpecificationsTable1();
    SpecificationsTable2();
    SpecificationsTable3();
    SpecificationsTable4();
    SpecificationsTable5();
    SpecificationsTable6();
    SpecificationsTable7();
    SpecificationsTable8();
  }

  lemma SpecificationsTable1()
    ensures '{' !in "4. Specifications"
  {
  }

  lemma SpecificationsTable2()
    ensures '{' !in " Table \U{2013} presented"
  {
  }

  lemma SpecificationsTable3()
    ensures '{' !in " in an HTML <table>,"
  {
  }

  lemma SpecificationsTable4()
    ensures '{' !in " listing dimensions,"
  {
  }

  lemma SpecificationsTable5()
    ensures '{' !in " glass thickness,"
  {
  }

  lemma SpecificationsTable6()
    ensures '{' !in " weight, finish"
  {
  }

  lemma SpecificationsTable7()
    ensures '{' !in " options, and"
  {
  }

  lemma SpecificationsTable8()
    ensures '{' !in " warranty."
  {
  }

  lemma GuaranteeHasNoBrace()
    ensures '{' !in Guarantee
  {
    Guarantee1();
    Guarantee2();
    Guarantee3();
    Guarantee4();
  }

  lemma Guarantee1()
    ensures '{' !in "5. Guarantee \U{2013} a"
  {
  }

  lemma Guarantee2()
    ensures '{' !in " short paragraph on"
  {
  }

  lemma Guarantee3()
    ensures '{' !in " warranty and"
  {
  }

  lemma Guarantee4()
    ensures '{' !in " customer support."
  {
  }

  lemma IncludedItemsHasNoBrace()
    ensures '{' !in IncludedItems
  {
    IncludedItems1();
    IncludedItems2();
    IncludedItems3();
    IncludedItems4();
  }

  lemma IncludedItems1()
    ensures '{' !in "6. Included Items \U{2013}"
  {
  }

  lemma IncludedItems2()
    ensures '{' !in " a bullet list of"
  {
  }

  lemma IncludedItems3()
    ensures '{' !in " items included in"
  {
  }

  lemma IncludedItems4()
    ensures '{' !in " the box."
  {
  }

  lemma AboutTheBrandHasNoBrace()
    ensures '{' !in AboutTheBrand
  {
    AboutTheBrand1();
    AboutTheBrand2();
    AboutTheBrand3();
    AboutTheBrand4();
    AboutTheBrand5();
    AboutTheBrand6();
  }

  lemma AboutTheBrand1()
    ensures '{' !in "7. About the Brand \U{2013}"
  {
  }

  lemma AboutTheBrand2()
    ensures '{' !in " a final paragraph"
  {
  }

  lemma AboutTheBrand3()
    ensures '{' !in " describing the"
  {
  }

  lemma AboutTheBrand4()
    ensures '{' !in " brand\U{2019}s identity,"
  {
  }

  lemma AboutTheBrand5()
    ensures '{' !in " craftsmanship, and"
  {
  }

  lemma AboutTheBrand6()
    ensures '{' !in " design philosophy."
  {
  }

  lemma NumberingHasNoBrace()
    ensures '{' !in Numbering
  {
    Numbering1();
    Numbering2();
  }

  lemma Numbering1()
    ensures '{' !in "add numbers to the"
  {
  }

  lemma Numbering2()
    ensures '{' !in " headings. "
  {
  }

  lemma TaggingHasNoBrace()
    ensures '{' !in Tagging
  {
    Tagging1();
    Tagging2();
    Tagging3();
    Tagging4();
    Tagging5();
    Tagging6();
    Tagging7();
    Tagging8();
  }

  lemma Tagging1()
    ensures '{' !in "For each of the"
  {
  }

  lemma Tagging2()
    ensures '{' !in " above points use an"
  {
  }

  lemma Tagging3()
    ensures '{' !in " H1 or H2 tag for"
  {
  }

  lemma Tagging4()
    ensures '{' !in " headings, and"
  {
  }

  lemma Tagging5()
    ensures '{' !in " ensure the content"
  {
  }

  lemma Tagging6()
    ensures '{' !in " is structured with"
  {
  }

  lemma Tagging7()
    ensures '{' !in " appropriate HTML"
  {
  }

  lemma Tagging8()
    ensures '{' !in " tags."
  {
  }

  lemma DetailsLeadHasNoBrace()
    ensures '{' !in DetailsLead
  {
    DetailsLead1();
    DetailsLead2();
    DetailsLead3();
  }

  lemma DetailsLead1()
    ensures '{' !in "Following are the"
  {
  }

  lemma DetailsLead2()
    ensures '{' !in " details about the"
  {
  }

  lemma DetailsLead3()
    ensures '{' !in " product:"
  {
  }
}
