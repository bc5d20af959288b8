/** The canonical question table (frontend/src/data/questions.js) that the
    quiz pages, the submitted answer list, the CSV columns and the per-question
    statistics are all laid out by. */
module Questions {

  datatype Question = Question(id: string, category: string, text: string, options: seq<string>)

  /** No string occurs twice. */
  predicate Distinct(xs: seq<string>) {
    forall i, j :: 0 <= i < j < |xs| ==> xs[i] != xs[j]
  }

  /** `questions.findIndex((q) => q.id === id)`: the position of the first
      question with that id, or -1. */
  function FindIndex(qs: seq<Question>, id: string): (r: int)
    ensures -1 <= r < |qs|
    ensures r >= 0 ==> qs[r].id == id && forall j :: 0 <= j < r ==> qs[j].id != id
    ensures r == -1 ==> forall j :: 0 <= j < |qs| ==> qs[j].id != id
  {
    if qs == [] then -1
    else if qs[0].id == id then 0
    else var r := FindIndex(qs[1..], id); if r == -1 then -1 else r + 1
  }

  /** The `id` of the question at position `i`. */
  function IdAt(i: nat): string
    requires i < 35
  {
    match i
    case 0 => "mbti-1"
    case 1 => "mbti-2"
    case 2 => "mbti-3"
    case 3 => "mbti-4"
    case 4 => "mbti-5"
    case 5 => "mbti-6"
    case 6 => "mbti-7"
    case 7 => "mbti-8"
    case 8 => "mbti-9"
    case 9 => "mbti-10"
    case 10 => "tech-1"
    case 11 => "tech-2"
    case 12 => "tech-3"
    case 13 => "tech-4"
    case 14 => "tech-5"
    case 15 => "tech-6"
    case 16 => "tech-7"
    case 17 => "wiz-1"
    case 18 => "wiz-2"
    case 19 => "wiz-3"
    case 20 => "wiz-4"
    case 21 => "wiz-5"
    case 22 => "wiz-6"
    case 23 => "wiz-7"
    case 24 => "wiz-8"
    case 25 => "cult-1"
    case 26 => "cult-2"
    case 27 => "cult-3"
    case 28 => "int-1"
    case 29 => "int-2"
    case 30 => "iq-1"
    case 31 => "iq-2"
    case 32 => "iq-3"
    case 33 => "iq-4"
    case 34 => "iq-5"
  }

  /** The `category` of the question at position `i`. The table lists its
      questions in contiguous blocks of one category each, so the column is
      written as the block boundaries: MBTI at 0-9, Technical at 10-16, Wisdom at
      17-24, Cultural at 25-27, Integrative at 28-29 and IQ at 30-34. */
  function CategoryAt(i: nat): string
    requires i < 35
  {
    if i < 10 then "MBTI"
    else if i < 17 then "Technical"
    else if i < 25 then "Wisdom"
    else if i < 28 then "Cultural"
    else if i < 30 then "Integrative"
    else "IQ"
  }

  /** The `text` of the question at position `i`. */
  function TextAt(i: nat): string
    requires i < 35
  {
    match i
    case 0 => "At a party, you usually…"
    case 1 => "When faced with a new challenge, you…"
    case 2 => "When you make a decision, you mostly think about…"
    case 3 => "At work, you prefer…"
    case 4 => "In a group talk, you usually…"
    case 5 => "You enjoy learning from…"
    case 6 => "During an argument, you…"
    case 7 => "When traveling, you like…"
    case 8 => "After a busy day, You feel better when...."
    case 9 => "In your free time, you prefer…"
    case 10 => "With a new gadget, you…"
    case 11 => "When working on a group project, you usually…"
    case 12 => "While starting a coding assignment, your first step is to…"
    case 13 => "In a lab experiment, what excites you most?"
    case 14 => "When facing a tough technical subject, you…"
    case 15 => "In hackathons or competitions, your strength is…"
    case 16 => "You enjoy challenges because…"
    case 17 => "Life events happen…"
    case 18 => "I feel most connected when…"
    case 19 => "How often do you reflect on the meaning of life?"
    case 20 => "What’s the best way to deal with anger, arrogance, and other harmful tendencies?"
    case 21 => "Spirituality to me is…"
    case 22 => "Thinking and helping others in suffering is…"
    case 23 => "How do you view death?"
    case 24 => "Spirituality and science are…"
    case 25 => "What do you want the future of Indian culture to be?"
    case 26 => "If friends have bad habits (dirty content, smoking, etc.) what will you do?"
    case 27 => "Current social problems — ultimate cause?"
    case 28 => "Which type of family do you think is more happy?"
    case 29 => "How do you see your future after engineering?"
    case 30 => "If 5 machines make 5 parts in 5 mins, how long for 100 machines to make 100 parts?"
    case 31 => "Series: 2,6,12,20,30, ?"
    case 32 => "All roses are flowers. Some flowers fade quickly. Which is true?"
    case 33 => "At 3:15, angle between hour & minute hands?"
    case 34 => "A fair die is rolled twice. P(sum > 9)?"
  }

  /** The `options` lists of the questions, in source order. */
  const OptionLists: seq<seq<string>> := [
    ["Talk with many people", "Chat with a few new faces", "Stay with close friends", "Sit quietly in a corner"],
    ["Seek advice and discuss it with others", "Think it through quietly on your own", "Focus on practical ways to solve it", "Consider unconventional or innovative approaches"],
    ["Rules and what’s fair", "Logic and outcomes", "People’s feelings", "Keeping harmony"],
    ["Clear schedules", "Organized plans", "Some flexibility", "Total freedom"],
    ["Share ideas confidently and early", "Share and listen equally", "Listen more than talk", "Stay mostly silent"],
    ["Proven facts and information", "Hands-on practice and real examples", "Creative ideas and new perspectives", "Problem-solving and trying things out"],
    ["Stay calm and logical", "Use facts to explain", "Care about emotions", "Try to make peace"],
    ["Fixed schedule", "Rough plan", "Decide daily", "Go with the flow"],
    ["Talking and sharing with others", "Having a mix of chat and rest", "Quiet time alone", "No one around you at all"],
    ["Reading or learning something new", "Doing hobbies or creative work", "Spending time with friends/family", "Relaxing alone and recharging"],
    ["Open it to check inside", "Read the guide first", "Try buttons randomly", "Avoid touching it"],
    ["Take the lead and assign tasks", "Contribute ideas and discuss actively", "Do your part quietly and consistently", "Wait until others guide you"],
    ["Write pseudocode or a clear plan", "Start coding and figure things out on the way", "Look for examples and resources online", "Ask seniors/peers for suggestions"],
    ["Getting accurate readings and results", "Setting up and running the experiment", "Understanding the concepts behind it", "Writing conclusions and reports"],
    ["Break it into small parts and study step by step", "Look for patterns or shortcuts to understand faster", "Discuss with friends or join group studies", "Wait until exams get closer to focus on it"],
    ["Coding/debugging under pressure", "Designing innovative ideas", "Coordinating and motivating the team", "Presenting the solution confidently"],
    ["They sharpen logic", "They solve problems", "They push creativity", "They are fun to try"],
    ["Due to destiny", "From God’s plan", "From human choices", "By luck"],
    ["Praying or meditating", "Helping others", "Reflecting on myself", "Reaching my goals"],
    ["Rarely, rather I focus on daily tasks", "Sometimes, when I face challenges", "Often, I think about life’s bigger questions", "Very often, it’s a regular part of my life"],
    ["They’re not bad and should be encouraged", "Indulge in them to feel pacified", "Control yourself and avoid acting on them", "Build positive habits to replace negativity"],
    ["Belief in God", "Care for others", "Knowing myself", "Not important"],
    ["My main value", "Important with balance", "Good sometimes", "Not my priority"],
    ["As a natural transition of the soul", "As the end of existence", "As a reminder to live meaningfully", "As a mystery that should not be feared"],
    ["Naturally connected", "Linked at times", "Independent from each other", "Totally Opposite"],
    ["Western culture dominates", "Revive Indian culture", "I don’t know", "Other"],
    ["Accept in moderation", "Life is for enjoyment", "Postpone to later", "Avoid/stop them", "Promote pure life"],
    ["Part of life", "No ideal leaders", "Neglecting values/tradition", "Irreligious/atheistic"],
    ["Joint family", "Nuclear family", "Atomic family"],
    ["Crack job & enjoy", "MS/MBA/M.Tech then PhD", "Start your own business", "Confused", "Need guidance"],
    ["5 mins", "20 mins", "100 mins", "1 min"],
    ["36", "40", "42", "56"],
    ["Some roses fade quickly", "All flowers fade quickly", "Some flowers don’t fade quickly", "No roses fade quickly"],
    ["0°", "7.5°", "30°", "37.5°"],
    ["5/18", "1/3", "1/6", "7/18"]]

  /** The `options` of the question at position `i`. */
  function OptionsAt(i: nat): seq<string>
    requires i < 35
  {
    OptionLists[i]
  }

  /** The `questions` array, in source order. */
  const Table: seq<Question> :=
    seq(35, i requires 0 <= i < 35 => Question(IdAt(i), CategoryAt(i), TextAt(i), OptionsAt(i)))

  /** Where an id of the form `<block>-<n>` sits in the table: the first position
      of the block its prefix names, plus n - 1. Used only to show the ids differ. */
  function PositionOfId(id: string): int {
    if |id| < 2 then -1
    else
      var start :=
        if id[0] == 'm' then 0 else if id[0] == 't' then 10 else if id[0] == 'w' then 17
        else if id[0] == 'c' then 25 else if id[0] == 'i' && id[1] == 'n' then 28 else 30;
      var last := id[|id| - 1] as int - '0' as int;
      var n := if id[|id| - 2] == '1' && last == 0 then 10 else last;
      start + n - 1
  }

  lemma PositionOfFirstIds(i: nat)
    requires i < 18
    ensures PositionOfId(IdAt(i)) == i
  {
    match i
    case 0 =>
    case 1 =>
    case 2 =>
    case 3 =>
    case 4 =>
    case 5 =>
    case 6 =>
    case 7 =>
    case 8 =>
    case 9 =>
    case 10 =>
    case 11 =>
    case 12 =>
    case 13 =>
    case 14 =>
    case 15 =>
    case 16 =>
    case 17 =>
  }

  lemma PositionOfLastIds(i: nat)
    requires 18 <= i < 35
    ensures PositionOfId(IdAt(i)) == i
  {
    match i
    case 18 =>
    case 19 =>
    case 20 =>
    case 21 =>
    case 22 =>
    case 23 =>
    case 24 =>
    case 25 =>
    case 26 =>
    case 27 =>
    case 28 =>
    case 29 =>
    case 30 =>
    case 31 =>
    case 32 =>
    case 33 =>
    case 34 =>
  }

  /** The table has 35 questions. */
  lemma TableLength()
    ensures |Table| == 35
  {
  }

  /** No two questions share an id, so looking up a question's id finds that question. */
  lemma IdsDistinct()
    ensures forall i, j :: 0 <= i < j < |Table| ==> Table[i].id != Table[j].id
    ensures forall i :: 0 <= i < |Table| ==> FindIndex(Table, Table[i].id) == i
  {
    forall i | 0 <= i < 35
      ensures PositionOfId(Table[i].id) == i
    {
      if i < 18 { PositionOfFirstIds(i); } else { PositionOfLastIds(i); }
    }
  }

  /** Every options list has three to five entries, none of them twice. */
  lemma OptionListsShape(i: nat)
    requires i < |OptionLists|
    ensures 3 <= |OptionLists[i]| <= 5 && Distinct(OptionLists[i])
  {
  }

  /** Every question of the table offers three to five options, none of them twice. */
  lemma OptionsShape()
    ensures forall i :: 0 <= i < |Table| ==> 3 <= |Table[i].options| <= 5 && Distinct(Table[i].options)
  {
    forall i | 0 <= i < |Table|
      ensures 3 <= |Table[i].options| <= 5 && Distinct(Table[i].options)
    {
      assert Table[i].options == OptionLists[i];
      OptionListsShape(i);
    }
  }

  /** Question `cult-1`, the first Cultural question, lists "Other" among its
      options, which are distinct. */
  lemma OtherIsAnOptionOfCult1()
    ensures Table[25].id == "cult-1" && Table[25].category == "Cultural"
    ensures "Other" in Table[25].options && Distinct(Table[25].options)
  {
  }
}
