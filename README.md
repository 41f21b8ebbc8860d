# Learnify core, modelled in Dafny

Learnify is a learning platform: a Next.js client and API routes, plus a small Python server
that runs a conversational learning-style assessment. This project models the parts of it
that decide things, and proves what they promise:

- the assessment server's answer validator, its gibberish test and the stateless
  question/answer step that ends in four labelled learning-style axes (`server.dfy`);
- the client's learning-style rules: the answer-to-style transformer, the multiple-choice
  assessment form and the chat-style assessment page (`transformer.dfy`, `answers.dfy`,
  `assessment.dfy`, `chatbot.dfy`);
- the text rewriting done on chat replies: the markdown streaming splitter, the code line
  wrapper, the mermaid and image-tag placeholder extraction, and the mermaid syntax repairs
  (`markdown.dfy`, `message.dfy`, `mermaid.dfy`, with string helpers in `text.dfy`);
- the Redux courses and profile slices, their five-minute staleness rule and the courses hook
  (`redux.dfy`);
- the chapter quiz, the course exam and the chapter pager (`coursework.dfy`);
- the course catalogue filter and the chat-history search (`filters.dfy`);
- the sign-up, log-in and profile form validators, including the HTML e-mail pattern
  (`forms.dfy`, `profile.dfy`), the course chat panel and the dashboard greeting
  (`chatwindow.dfy`);
- request gating: the middleware, the three Cookie-header readers copied into the route
  handlers, and the order of authentication and input checks that fixes every status code of
  the modelled API routes (`middleware.dfy`, `cookies.dfy`, `http.dfy`, `auth_routes.dfy`,
  `conversations.dfy`, `learning_style.dfy`, `sessions.dfy`, `agent_routes.dfy`,
  `mock_routes.dfy`, `image.dfy`).

Pure code (guard chains, mappings, filters) is modelled as functions with lemmas; code that
updates state step by step (React component state, Immer reducers, loops that build a result)
is modelled as classes and methods whose postconditions tie the new state to specification
functions. Token verification, the classifier, the tokenizer, regular-expression matching,
the clock and the database are parameters of the model; the database tables become maps and
lists held by small store classes.

## Model

| member | source | states |
|---|---|---|
| LearningStyleServer.RatioCutoff | src/learning_style_model/server.py:27-28 | difflib's ratio 2M/T reaches the 0.8 cut-off exactly when 5M >= 2T, so the close-match test is integer arithmetic |
| LearningStyleServer.CloseMatchesByRatio | src/learning_style_model/server.py:27-28 | the close matches are exactly the dictionary words whose difflib ratio with the word reaches the 0.8 cut-off |
| LearningStyleServer.IsValidWord | src/learning_style_model/server.py:21-29 | a word is valid iff its lower-case form is in the dictionary or some dictionary word is within the 0.8 ratio cut-off |
| LearningStyleServer.CountValid | src/learning_style_model/server.py:44 | the valid-token count never exceeds the number of tokens |
| LearningStyleServer.IsGibberish | src/learning_style_model/server.py:32-47 | the gibberish test, stated exactly by GibberishExactly below |
| LearningStyleServer.GibberishExactly | src/learning_style_model/server.py:32-47 | the integer test 10 * valid < 3 * tokens flags text exactly when it is shorter than 5, has no tokens, or the share valid / tokens is below 0.3 as the source divides it |
| LearningStyleServer.ValidateAnswer | src/learning_style_model/server.py:88-107 | accepted answers are the stripped text, at least 5 long and not gibberish; an all-whitespace answer is "empty", 1-4 stripped characters "too short", otherwise gibberish is refused; the check order is kept |
| LearningStyleServer.ShortAnswerRejected | src/learning_style_model/server.py:98-101 | a stripped answer of 1 to 4 characters is refused as too short whatever the dictionary |
| LearningStyleServer.DetailIdentifiesRejection | src/learning_style_model/server.py:97-106 | the three validation details and the too-many-responses detail are pairwise different, so the detail tells the reason |
| LearningStyleServer.AxesDistinct | src/learning_style_model/server.py:142-147 | the eight style labels of the four axes are pairwise distinct |
| LearningStyleServer.LabelsDistinct | src/learning_style_model/server.py:148-153 | the labels chosen on different axes differ, so no result key overwrites another |
| LearningStyleServer.ResultsKeys | src/learning_style_model/server.py:148-153 | the result dictionary has exactly four keys, the chosen labels, each mapped to its axis's predicted class |
| LearningStyleServer.ResultsOnAxis | src/learning_style_model/server.py:150 | on each axis the first label is a key iff the class is 1 and the second iff it is not |
| LearningStyleServer.StartConversation | src/learning_style_model/server.py:75-80 | the conversation starts with the first question and no responses |
| LearningStyleServer.ProcessAnswer | src/learning_style_model/server.py:122-162 | a refused answer is refused with its reason; an accepted one is appended stripped; fewer than four responses bring the next question, exactly four bring the labelled results and "Test complete.", more than four are refused |
| LearningStyleServer.ValidationFirst | src/learning_style_model/server.py:134-162 | validation happens before the response count is checked: an empty answer is refused as empty even with too many responses |
| LearningStyleServer.AcceptedBeforeLast | src/learning_style_model/server.py:135-138 | an accepted answer with fewer than three earlier responses yields the next question and the extended list |
| LearningStyleServer.AcceptedLast | src/learning_style_model/server.py:139-160 | an accepted fourth answer completes the test with the labelled classification of the four stripped answers, "Test complete." and the extended list |
| LearningStyleServer.FullConversation | src/learning_style_model/server.py:75-160 | four accepted answers from the start reach the complete result, with the four stripped answers as responses |
| LearningStyleServer.AnswerEndpoint | src/learning_style_model/server.py:88-162 | the HTTP reply of /answer/: 400 exactly when the stripped answer is under 5 long, is gibberish, or four responses already exist, with the detail of that refusal; otherwise 200 with the body ProcessAnswer computes |
| StyleTransformer.Subjects | src/lib/transformers/learningStyleTransformer.ts:198-200 | the chosen subjects, or the empty list when question 2 is unanswered |
| StyleTransformer.StructuredLearning | src/lib/transformers/learningStyleTransformer.ts:202-204 | the structure answer, or 'Somewhat important' when it is missing or empty |
| StyleTransformer.FocusAbility | src/lib/transformers/learningStyleTransformer.ts:206-208 | the focus rating, or 3 when it is missing or 0 |
| StyleTransformer.SchedulePreference | src/lib/transformers/learningStyleTransformer.ts:210-212 | the schedule answer, or 'Flexible schedule' when it is missing or empty |
| StyleTransformer.PrimaryStyle | src/lib/transformers/learningStyleTransformer.ts:76-94 | each of reading, interactive and listening maps to its VARK style iff it is the content answer; every other answer, missing included, gives 'Visual Learner' |
| StyleTransformer.ProcessingStyle | src/lib/transformers/learningStyleTransformer.ts:100-124 | Active for interactive content with relaxed structure, Reflective for reading or listening with valued structure, otherwise Reflective iff the focus rating (default 3) is at least 4 |
| StyleTransformer.PerceptionStyle | src/lib/transformers/learningStyleTransformer.ts:130-150 | Sensing iff Programming or Business is among the subjects, Intuitive otherwise |
| StyleTransformer.InputStyle | src/lib/transformers/learningStyleTransformer.ts:156-170 | Verbal iff the content answer is reading or listening, Visual otherwise |
| StyleTransformer.UnderstandingStyle | src/lib/transformers/learningStyleTransformer.ts:176-194 | Global iff the raw structure answer is 'Not important' or 'Somewhat important', Sequential otherwise |
| StyleTransformer.TransformLearningStyle | src/lib/transformers/learningStyleTransformer.ts:34-70 | each dimension is one of its two poles and is given by its rule; the preferences are the four getters' values |
| StyleTransformer.NoAnswers | src/lib/transformers/learningStyleTransformer.ts:34-70 | with no answers the result is Visual Learner / Active / Intuitive / Visual / Sequential with every default preference |
| StyleTransformer.SkippedStructureQuestion | src/lib/transformers/learningStyleTransformer.ts:176-204 | a skipped structure question is reported as 'Somewhat important' yet yields Sequential, where that answer itself yields Global |
| LearningAssessment.RemoveAll | src/components/assessment/LearningAssessment.tsx:73 | the filter keeps exactly the items different from the option, so the option is gone and nothing is added |
| LearningAssessment.RemoveAllAbsent | src/components/assessment/LearningAssessment.tsx:73 | filtering out an option that is not in the list leaves the list unchanged |
| LearningAssessment.RemoveAllAppend | src/components/assessment/LearningAssessment.tsx:73 | the filter distributes over concatenation |
| LearningAssessment.Toggle | src/components/assessment/LearningAssessment.tsx:67-81 | a chosen option is removed (every copy), an unchosen one appended at the end |
| LearningAssessment.ToggleTwice | src/components/assessment/LearningAssessment.tsx:67-81 | choosing an unchosen option and choosing it again restores the list |
| LearningAssessment.AnalyzeLearningStyle | src/components/assessment/LearningAssessment.tsx:113-139 | the four preferences are the stored answers of questions 2-5 or their defaults ([], 'Somewhat important', 3, 'Flexible schedule') |
| LearningAssessment.AnalysisMatchesTransformer | src/components/assessment/LearningAssessment.tsx:117-128 | the form's if-chain gives the same primary style as the transformer's switch |
| LearningAssessment.Answered | src/components/assessment/LearningAssessment.tsx:87-96 | isAnswered: an answer is present and truthy, and for a multiple-choice question a non-empty list; its consequences are the lemmas and the SingleAnswer/MultipleAnswer ensures below |
| LearningAssessment.AssessmentForm.IsAnswered | src/components/assessment/LearningAssessment.tsx:87-96 | the form's isAnswered is Answered on the current question |
| LearningAssessment.AssessmentForm.constructor | src/components/assessment/LearningAssessment.tsx:22-25 | the form starts on the first question with no answers, not submitting and no error |
| LearningAssessment.AssessmentForm.SingleAnswer | src/components/assessment/LearningAssessment.tsx:63-65 | the current question's answer becomes the option, so a non-empty option makes it answered; other answers are kept |
| LearningAssessment.AssessmentForm.MultipleAnswer | src/components/assessment/LearningAssessment.tsx:67-81 | the current question's list (empty when missing) is toggled by the option, so choosing a new option makes it answered; other answers are kept |
| LearningAssessment.AssessmentForm.RateCurrent | src/components/assessment/LearningAssessment.tsx:83-85 | the current question's answer becomes the rating |
| LearningAssessment.AssessmentForm.Previous | src/components/assessment/LearningAssessment.tsx:106-110 | the index moves back by one, never below the first question |
| LearningAssessment.AssessmentForm.Submit | src/components/assessment/LearningAssessment.tsx:141-164 | without a user only the not-logged-in error is set; with one the form is marked submitting, the error cleared and one save request with the analysis is sent |
| LearningAssessment.AssessmentForm.SaveFailed | src/components/assessment/LearningAssessment.tsx:173-177 | a failed save shows its message and re-enables the form |
| LearningAssessment.AssessmentForm.Next | src/components/assessment/LearningAssessment.tsx:98-164 | below the last question the index advances and nothing is sent; on the last one it submits: without a user only the not-logged-in error is set, with one the form is submitting, the error cleared and the save request with the analysis of the answers is sent |
| LearningAssessment.SingleAnswerAnswers | src/components/assessment/LearningAssessment.tsx:63-96 | a non-empty single answer makes the question answered and leaves every other question's answer alone |
| LearningAssessment.ToggleNewOptionAnswers | src/components/assessment/LearningAssessment.tsx:67-96 | choosing an option not yet chosen leaves a list holding it, so the multiple-choice question is answered |
| LearningAssessment.ToggleLastOptionUnanswers | src/components/assessment/LearningAssessment.tsx:67-96 | deselecting the only chosen option leaves the multiple-choice question unanswered |
| ChatbotAssessment.FindEither | src/components/assessment/ChatbotAssessment.tsx:175-178 | the result is one of the two labels present in the keys, or the default exactly when neither label is a key |
| ChatbotAssessment.FindEitherFirst | src/components/assessment/ChatbotAssessment.tsx:175-178 | when the key at position j is the first one equal to either label, that key is the result |
| ChatbotAssessment.MapStyles | src/components/assessment/ChatbotAssessment.tsx:170-179 | each profile field is one of its axis's two labels, and a missing second label gives the Active/Intuitive/Visual/Sequential default |
| ChatbotAssessment.MappingRecoversServerResult | src/components/assessment/ChatbotAssessment.tsx:170-179 | on the server's result keys (one label per axis) every profile field is exactly the label the server chose for that axis |
| ChatbotAssessment.ApplyReply | src/components/assessment/ChatbotAssessment.tsx:149-224 | an HTTP error shows its detail or the generic message; a next question replaces the responses and adds the user's turn and the question; a result completes the test, records the mapped styles, adds the summary and saves the profile when a user is present |
| ChatbotAssessment.Send | src/components/assessment/ChatbotAssessment.tsx:128-227 | a trimmed input under five UTF-16 code units is refused locally and nothing is sent; otherwise the untrimmed input goes out with the validated responses and, whatever the reply, loading ends and the input is cleared |
| ChatbotAssessment.AstralInputSent | src/components/assessment/ChatbotAssessment.tsx:131 | three emoji, six code units, pass the length test and are sent |
| ChatbotAssessment.SendWhileLoading | src/components/assessment/ChatbotAssessment.tsx:136-227 | applying the reply while loading is on, then ending loading and clearing the input, gives the same page state as Send |
| ChatbotAssessment.NextQuestionReply | src/components/assessment/ChatbotAssessment.tsx:156-164 | a next-question reply takes the server's responses and appends the user's turn and the question |
| ChatbotAssessment.InputClearedAfterAnyReply | src/components/assessment/ChatbotAssessment.tsx:224-227 | after any reply, success or failure, the input is empty and loading is off, and the request carried the raw input |
| ChatbotAssessment.CompletedTestSavesServerLabels | src/components/assessment/ChatbotAssessment.tsx:165-205 | when the server completes the test, the stored and saved profile carries the server's label on every axis |
| ChatbotAssessment.IsComplete | src/components/assessment/ChatbotAssessment.tsx:62-66 | an existing profile is one with all four style fields non-empty; its use is stated by ExistingProfileLoaded |
| ChatbotAssessment.Cancel | src/components/assessment/ChatbotAssessment.tsx:241-247 | the conversation, the responses, completion, the started flag and the error are reset; everything else is kept |
| ChatbotAssessment.Start | src/components/assessment/ChatbotAssessment.tsx:96-119 | without a user nothing changes; a start shows the first question (when given) and ends loading; a failure shows the server error and leaves the assessment not started |
| ChatbotAssessment.Retake | src/components/assessment/ChatbotAssessment.tsx:230-239 | the responses, completion and existing-profile flag are cleared and the conversation restarts with the first question |
| ChatbotAssessment.ChatbotSession.constructor | src/components/assessment/ChatbotAssessment.tsx:24-32 | the page starts with no messages, no responses, empty input and every flag off |
| ChatbotAssessment.ChatbotSession.Type | src/components/assessment/ChatbotAssessment.tsx:480 | typing sets the input and nothing else |
| ChatbotAssessment.ChatbotSession.ExistingProfileLoaded | src/components/assessment/ChatbotAssessment.tsx:56-83 | only a profile with all four style fields counts as existing, and then its fields become the shown style |
| ChatbotAssessment.ChatbotSession.HandleSend | src/components/assessment/ChatbotAssessment.tsx:128-227 | the new page state and the request sent are those of Send on the old state |
| ChatbotAssessment.ChatbotSession.HandleStart | src/components/assessment/ChatbotAssessment.tsx:96-119 | the new page state is Start on the old one |
| ChatbotAssessment.ChatbotSession.HandleRetake | src/components/assessment/ChatbotAssessment.tsx:230-239 | the new page state is Retake on the old one |
| ChatbotAssessment.ChatbotSession.HandleCancel | src/components/assessment/ChatbotAssessment.tsx:241-247 | the new page state is Cancel on the old one |
| MarkdownChunks.ChunkSize | src/app/api/chat/markdown/route.ts:184 | the chunk size is the least size whose multiple by the chunk count covers the text, and at least 1 for a non-empty text |
| MarkdownChunks.BackOff | src/app/api/chat/markdown/route.ts:196-201 | the backward search moves at most 20 characters, over no break character, and stops just after one unless its steps run out |
| MarkdownChunks.BreakPoint | src/app/api/chat/markdown/route.ts:189-206 | a chunk ends past its start and no later than its target; it ends earlier only when the target is mid-word, then at most 20 back, over no break character, just after one unless the 20 steps run out; and a mid-word target does move back past every break character within 20 positions and after the chunk start |
| MarkdownChunks.FindBreakPoint | src/app/api/chat/markdown/route.ts:189-206 | the imperative search loop finds exactly the break point the specification function describes |
| MarkdownChunks.SplitText | src/app/api/chat/markdown/route.ts:182-213 | the plain splitter gives no chunks exactly when the text is empty |
| MarkdownChunks.SplitTextIntoChunks | src/app/api/chat/markdown/route.ts:182-213 | the cut-push-advance loop yields the chunks of the specification function |
| MarkdownChunks.ChunksFromConcat | src/app/api/chat/markdown/route.ts:187-210 | the chunks from any start concatenate back to the rest of the text |
| MarkdownChunks.ChunksFromSizes | src/app/api/chat/markdown/route.ts:187-210 | every chunk from any start holds between 1 and the chunk size characters |
| MarkdownChunks.SplitTextConcat | src/app/api/chat/markdown/route.ts:182-213 | splitting loses and adds nothing: the chunks concatenate to the text |
| MarkdownChunks.SplitTextSizes | src/app/api/chat/markdown/route.ts:182-213 | with at least one chunk asked for, every chunk is non-empty and at most ceil(length / count) long |
| MarkdownChunks.DropBlank | src/app/api/chat/markdown/route.ts:178 | the final filter keeps exactly the chunks that are not blank after trimming |
| MarkdownChunks.SplitMarkdownIntoChunks | src/app/api/chat/markdown/route.ts:57-179 | a text under 100 UTF-16 code units or one without special elements is split by the plain splitter; otherwise no returned chunk is blank |
| MessageContent.AddLineBreaks | src/components/learning/Message.tsx:558-589 | code that already spans several lines, or whose UTF-16 length fits the line, is returned unchanged |
| MessageContent.WrapWords | src/components/learning/Message.tsx:566-585 | the word loop, tracking the current line length, builds exactly the greedy layout of the specification function |
| MessageContent.WrapStep | src/components/learning/Message.tsx:576-582 | appending one word's piece (with or without a line feed) advances the layout by exactly that word |
| MessageContent.AddLineBreaksToLongLines | src/components/learning/Message.tsx:558-589 | the method returns the wrapped text the specification function describes |
| MessageContent.WrapKeepsWords | src/components/learning/Message.tsx:570-585 | wrapping loses and reorders nothing: deleting the inserted line feeds gives back the line followed by one space |
| MessageContent.WrapBreakRule | src/components/learning/Message.tsx:576-582 | a line feed goes before a word exactly when the counter plus the word's UTF-16 length and its space exceeds the maximum |
| MessageContent.CounterIsLineLength | src/components/learning/Message.tsx:566-582 | the counter the loop keeps is the UTF-16 length of the output's last line: after a line feed that line is the word and its space, otherwise it grows by them (also a loop invariant of WrapWords) |
| MessageContent.ReplaceFirst | src/components/learning/Message.tsx:153 | a string-pattern replace leaves text without the pattern unchanged |
| MessageContent.ReplaceFirstOccurrence | src/components/learning/Message.tsx:153 | when the pattern occurs, exactly its first occurrence is replaced and the text around it is kept |
| MessageContent.DiagramsNumbered | src/components/learning/Message.tsx:147-157 | one diagram is recorded per mermaid block, in order, the i-th with the block's trimmed code and placeholder i |
| MessageContent.ExtractStep | src/components/learning/Message.tsx:147-157 | one more block replaces its first occurrence by its placeholder and adds its numbered diagram at the end |
| MessageContent.ExtractAndRemoveMermaidBlocks | src/components/learning/Message.tsx:135-161 | the loop's clean content has each block replaced by its placeholder in turn and its diagram list is the numbered one |
| MessageContent.Replaced | src/components/learning/Message.tsx:115-122 | the replace callback numbers the tags with a non-empty trimmed prompt 0, 1, 2, ... in order and records those prompts |
| MessageContent.ReplacedPrefix | src/components/learning/Message.tsx:115-122 | the output for the first pieces is a prefix of the whole output, content and tags alike |
| MessageContent.MarkerAtTag | src/components/learning/Message.tsx:115-122 | the k-th tag with a non-empty prompt is replaced, where it stood, by the marker `__IMAGE_k__`, and tag k records its trimmed prompt, number and raw text |
| MessageContent.PlainAtPiece | src/components/learning/Message.tsx:115-122 | text between tags is copied where it stood |
| MessageContent.BlankTagVanishes | src/components/learning/Message.tsx:115-122 | a tag whose prompt trims to nothing is deleted without using a number |
| MessageContent.PlainText | src/components/learning/Message.tsx:115-122 | the text between the tags, for the statement below |
| MessageContent.NoPromptsPlainText | src/components/learning/Message.tsx:115-122 | without a non-empty prompt the output is the text between the tags, every tag deleted, and no tags |
| MessageContent.ProcessImgGenTagsSpec | src/components/learning/Message.tsx:85-125 | a partial tag in a text under 100 code units, or a text already holding image markers, is returned as is with no tags; otherwise the tags are the numbered non-empty prompts |
| MessageContent.ProcessImgGenTags | src/components/learning/Message.tsx:85-125 | the method with its counter computes exactly the specification function |
| MessageContent.ReplacedHasMarker | src/components/learning/Message.tsx:115-122 | a pass that numbers at least one tag leaves an image marker in its output |
| MessageContent.ProcessTwice | src/components/learning/Message.tsx:94-107 | processing is idempotent once an image was numbered: a second pass returns the output unchanged with no tags |
| MessageContent.IsStreamingChunk | src/components/learning/Message.tsx:885-900 | content of at most two UTF-16 code units is a streaming fragment; content of 300 or more, or with a code fence or a blank line, is not |
| MermaidRepair.NodeAt | src/components/learning/MermaidDiagram.tsx:116 | a node match at a position is a non-empty run of word characters, '[', a label with no ']' and no line terminator, then ']' |
| MermaidRepair.NodeAtFinds | src/components/learning/MermaidDiagram.tsx:116-124 | conversely, wherever the line holds a node of that shape, the match at its position is that node, with its id and label |
| MermaidRepair.NextNode | src/components/learning/MermaidDiagram.tsx:124 | the exec loop finds the leftmost node match at or after its last index, and none when no position matches |
| MermaidRepair.Substitute | src/components/learning/MermaidDiagram.tsx:132-135 | the replacement string's patterns: `$$` gives a dollar sign, `$&` the match, `` $` `` and `$'` the text before and after it, anything else is kept |
| MermaidRepair.SubstituteLiteral | src/components/learning/MermaidDiagram.tsx:132-135 | a replacement without a dollar sign is inserted as written |
| MermaidRepair.SubstituteAppend | src/components/learning/MermaidDiagram.tsx:132-135 | two replacement texts expand separately unless a trailing `$` of the first pairs with the second |
| MermaidRepair.ReplaceIn | src/components/learning/MermaidDiagram.tsx:134-135 | the global replace scans left to right and replaces non-overlapping occurrences, each expanded against the text around it |
| MermaidRepair.ReplaceAll | src/components/learning/MermaidDiagram.tsx:134-135 | a global replace of the escaped match leaves text without it unchanged and adds no line feed |
| MermaidRepair.ReplaceAllFirst | src/components/learning/MermaidDiagram.tsx:134-135 | the first occurrence is replaced where it stands by the expanded replacement, and the text before it is kept |
| MermaidRepair.ReplaceAllLiteral | src/components/learning/MermaidDiagram.tsx:134-135 | with a dollar-free replacement, the first occurrence becomes the replacement and the rest of the text is replaced in turn |
| MermaidRepair.ReplaceWhole | src/components/learning/MermaidDiagram.tsx:134-135 | replacing a text that is all match yields the expanded replacement alone |
| MermaidRepair.EscapeQuotes | src/components/learning/MermaidDiagram.tsx:174 | escaping puts a backslash before a leading double quote and adds no line feed |
| MermaidRepair.QuoteNode | src/components/learning/MermaidDiagram.tsx:128-136 | one match leaves the line alone when the first pass finds no special character in its label, or when the node text is no longer in the line |
| MermaidRepair.QuoteNodes | src/components/learning/MermaidDiagram.tsx:117-137 | one pass over a line: every node match in turn, each quoted when its label needs it, the replacement applied to the line so far; QuoteSpecialLine, QuoteAllLine and QuoteNodesNoNewline state its effect |
| MermaidRepair.QuoteLineNodes | src/components/learning/MermaidDiagram.tsx:117-137 | the exec loop over one line rewrites it exactly as the quoting specification function does, `$` expansion included |
| MermaidRepair.SingleNodeLine | src/components/learning/MermaidDiagram.tsx:124-137 | on a line that is one node the loop makes exactly one step, on that node |
| MermaidRepair.QuoteSpecialLine | src/components/learning/MermaidDiagram.tsx:129-136 | a one-node line `id[t]` whose label has a special character becomes `id["t"]`, the label put through the `$` expansion |
| MermaidRepair.QuoteSpecialLiteral | src/components/learning/MermaidDiagram.tsx:129-136 | with no dollar sign in that label, the line becomes exactly `id["t"]` |
| MermaidRepair.QuoteAllLine | src/components/learning/MermaidDiagram.tsx:171-182 | in the aggressive pass a one-node line `id[t]` becomes `id["t'"]`, t' the label with quotes escaped and `$` expanded |
| MermaidRepair.QuotedExpansion | src/components/learning/MermaidDiagram.tsx:132-135 | in `id["t"]` only the label is expanded: the id and brackets hold no dollar sign |
| MermaidRepair.DoubleDollarLabel | src/components/learning/MermaidDiagram.tsx:132-135 | the line `A[$$x]` comes out as `A["$x"]` |
| MermaidRepair.MatchPatternLabel | src/components/learning/MermaidDiagram.tsx:132-135 | the line `A[$&]` comes out as `A["A[$&]"]` |
| MermaidRepair.QuoteAllAlwaysQuotes | src/components/learning/MermaidDiagram.tsx:173-182 | in the aggressive pass the escaped label never starts with a double quote, so every node is quoted |
| MermaidRepair.PlainLabelsUnchanged | src/components/learning/MermaidDiagram.tsx:124-137 | a line whose labels are all letters, digits and spaces comes out of the first pass unchanged |
| MermaidRepair.QuoteNodesNoNewline | src/components/learning/MermaidDiagram.tsx:124-137 | quoting a line never introduces a line feed |
| MermaidRepair.GapAt | src/components/learning/MermaidDiagram.tsx:141-144 | an arrow gap is the two arrow parts with a non-empty run of white space between them |
| MermaidRepair.CloseGap | src/components/learning/MermaidDiagram.tsx:141-144 | one `/<before>\s+<after>/g` replace: proved through the lemmas below |
| MermaidRepair.CloseGapCloses | src/components/learning/MermaidDiagram.tsx:141-144 | `before`, a run of white space and `after` become `before` + `after`, and the scan continues behind them |
| MermaidRepair.CloseGapPrefix | src/components/learning/MermaidDiagram.tsx:141-144 | text holding no first character of `before` is copied unchanged |
| MermaidRepair.CloseGapNoSpace | src/components/learning/MermaidDiagram.tsx:141-144 | text without white space has no gap to close |
| MermaidRepair.CloseGapNoNewline | src/components/learning/MermaidDiagram.tsx:141-144 | closing arrow gaps on a line never introduces a line feed |
| MermaidRepair.CloseGapOnlyDeletesSpace | src/components/learning/MermaidDiagram.tsx:141-144 | closing arrow gaps deletes only white space: with spaces removed, the line is unchanged |
| MermaidRepair.FixArrows | src/components/learning/MermaidDiagram.tsx:140-144 | the chained arrow repairs delete only white space and keep a one-line line on one line |
| MermaidRepair.ArrowGapClosed | src/components/learning/MermaidDiagram.tsx:141 | between two node names, `a-- >b` becomes `a-->b` |
| MermaidRepair.ShortArrowGapClosed | src/components/learning/MermaidDiagram.tsx:142 | `a- >b` becomes `a->b` |
| MermaidRepair.DoubleHeadGapClosed | src/components/learning/MermaidDiagram.tsx:141-143 | `a-- >>b` becomes `a-->>b`, already through the first replace |
| MermaidRepair.BackArrowGapClosed | src/components/learning/MermaidDiagram.tsx:144 | `a< --b` becomes `a<--b`, the earlier replaces leaving it alone |
| MermaidRepair.MapFixLine | src/components/learning/MermaidDiagram.tsx:113-147 | the line map gives one repaired line per line, in order |
| MermaidRepair.FixMermaidSyntax | src/components/learning/MermaidDiagram.tsx:108-151 | the repair keeps the line structure of the trimmed chart: splitting its output gives exactly the repaired lines, one per original line |
| MermaidRepair.CollapseSpace | src/components/learning/MermaidDiagram.tsx:191 | collapsing keeps every non-space character in order, leaves no line feed and no two white-space characters in a row, and turns a leading run into one space |
| MermaidRepair.CollapseSpaceSettled | src/components/learning/MermaidDiagram.tsx:191 | text whose white space is already single spaces is unchanged |
| MermaidRepair.CollapseSpaceIdempotent | src/components/learning/MermaidDiagram.tsx:191 | collapsing twice is collapsing once |
| MermaidRepair.ApplyAggressiveFixes | src/components/learning/MermaidDiagram.tsx:154-194 | without a 'PS' parse error no label is requoted and the chart is only white-space collapsed |
| MermaidRepair.TrimFlattens | src/components/learning/MermaidDiagram.tsx:191 | trimming a collapsed line leaves it flat: one line, single spaces, nothing to trim |
| MermaidRepair.AggressiveFlattens | src/components/learning/MermaidDiagram.tsx:154-194 | the aggressive pass always yields one flat line, whatever the chart and error |
| Text.Strip | src/learning_style_model/server.py:95 | the stripped answer is no longer than the input and neither starts nor ends with a whitespace character |
| Text.StripSlice | src/learning_style_model/server.py:95 | what stripping keeps is one contiguous slice of the input, and everything cut off before and after it is whitespace |
| Text.StripEmpty | src/learning_style_model/server.py:95 | stripping leaves nothing exactly when every character of the input is whitespace |
| Text.JsLength | src/components/assessment/ChatbotAssessment.tsx:131 | a JavaScript string length counts UTF-16 code units: between one and two per character |
| Text.JsLengthAppend | src/components/assessment/ChatbotAssessment.tsx:131 | the length of a concatenation is the sum of the lengths |
| Text.JsLengthBmp | src/components/assessment/ChatbotAssessment.tsx:131 | text of characters below U+10000 has as many code units as characters |
| Text.JsLengthAstral | src/components/assessment/ChatbotAssessment.tsx:131 | one character above U+FFFF makes the code-unit length exceed the character count |
| Text.Lower | src/app/api/getImage/route.ts:31 | lower-casing keeps the length and maps every ASCII capital to its small letter, leaving other characters alone |
| Text.JoinSplit | src/components/profile/ProfileContent.tsx:110-112 | joining the pieces of a split with the same separator gives back the original string |
| Text.SplitJoin | src/components/profile/ProfileContent.tsx:110-112 | splitting a join of separator-free pieces gives back those pieces |
| Freshness.Stale | src/lib/hooks/useCourses.ts:79-87 | a missing or zero timestamp always asks for a fetch; otherwise a fetch is due exactly when the data is more than five minutes old |
| Freshness.FiveMinuteBoundary | src/lib/redux/slices/profileSlice.ts:67-70 | data fetched exactly 300000 ms ago is fresh and one millisecond later it is stale |
| CoursesSlice.MarkEnrolled | src/lib/redux/slices/coursesSlice.ts:254-258 | the catalogue keeps its length; entries with the id get the flag and every other entry is unchanged |
| CoursesSlice.FindById | src/lib/redux/slices/coursesSlice.ts:266 | nothing is found exactly when no entry has the id, and what is found is an entry with the id |
| CoursesSlice.FindByIdFirst | src/lib/redux/slices/coursesSlice.ts:266 | what is found is the entry at the first position holding the id |
| CoursesSlice.MarkSelected | src/lib/redux/slices/coursesSlice.ts:260-263 | a selected course with the id gets the flag, any other selection is kept, and no selection stays none |
| CoursesSlice.EnrolledCopy | src/lib/redux/slices/coursesSlice.ts:266-269 | at most one entry is appended, none exactly when no catalogue entry has the id, and it carries the id and the enrolled flag |
| CoursesSlice.WithoutId | src/lib/redux/slices/coursesSlice.ts:294 | the enrolled list keeps exactly the entries whose id differs |
| CoursesSlice.CountId | src/lib/redux/slices/coursesSlice.ts:294 | the count of entries with an id is zero exactly when no entry has it |
| CoursesSlice.WithoutIdInOrder | src/lib/redux/slices/coursesSlice.ts:294 | withdrawal keeps the other enrolments in their order and drops every entry with the id |
| CoursesSlice.CoursesStore.constructor | src/lib/redux/slices/coursesSlice.ts:154-176 | the store starts in the initial state: empty lists, nothing loading, no errors, no timestamps |
| CoursesSlice.CoursesStore.SetSelectedCourse | src/lib/redux/slices/coursesSlice.ts:183-185 | only the selected course changes |
| CoursesSlice.CoursesStore.ClearErrors | src/lib/redux/slices/coursesSlice.ts:186-194 | every request's error becomes null and nothing else changes |
| CoursesSlice.CoursesStore.Reset | src/lib/redux/slices/coursesSlice.ts:195-198 | the state returns to the initial state |
| CoursesSlice.CoursesStore.Pending | src/lib/redux/slices/coursesSlice.ts:202-205 | a pending request sets its own loading flag and clears its own error only |
| CoursesSlice.CoursesStore.Rejected | src/lib/redux/slices/coursesSlice.ts:211-214 | a rejected request clears its own loading flag and records its own error only |
| CoursesSlice.CoursesStore.FetchAllFulfilled | src/lib/redux/slices/coursesSlice.ts:206-210 | the catalogue is replaced, its loading flag cleared and its timestamp set to the clock |
| CoursesSlice.CoursesStore.FetchEnrolledFulfilled | src/lib/redux/slices/coursesSlice.ts:221-225 | the enrolled list is replaced, its loading flag cleared and its timestamp set to the clock |
| CoursesSlice.CoursesStore.CourseDetailsFulfilled | src/lib/redux/slices/coursesSlice.ts:236-239 | the fetched course becomes the selected one and its loading flag is cleared |
| CoursesSlice.CoursesStore.EnrollFulfilled | src/lib/redux/slices/coursesSlice.ts:250-272 | the catalogue entries and a matching selected course are marked enrolled, the enrolled copy of the marked catalogue's entry is appended, the enrolment flag is cleared and errors and timestamps are untouched |
| CoursesSlice.CoursesStore.WithdrawFulfilled | src/lib/redux/slices/coursesSlice.ts:283-302 | the catalogue entries and a matching selected course are marked not enrolled, every enrolled entry with the id is removed, and only the withdrawal flag besides changes |
| CoursesSlice.EnrollAppendsOnce | src/lib/redux/slices/coursesSlice.ts:266-269 | enrolment appends nothing exactly when the catalogue has no course with the id |
| CoursesSlice.EnrollCopiesFirst | src/lib/redux/slices/coursesSlice.ts:266-269 | what enrolment appends is the enrolled copy of the catalogue's first course with the id |
| CoursesSlice.EnrollTwiceDuplicates | src/lib/redux/slices/coursesSlice.ts:266-269 | enrolling in an already enrolled course appends a second copy of it |
| CoursesSlice.MarkKeepsIds | src/lib/redux/slices/coursesSlice.ts:254-258 | marking keeps the catalogue's order: each entry differs at most in its enrolment flag |
| CoursesSlice.WithdrawRemovesOnlyThatCourse | src/lib/redux/slices/coursesSlice.ts:294 | after withdrawal no enrolled entry has the id and every other enrolled entry remains |
| CoursesHook.ShouldRefreshData | src/lib/hooks/useCourses.ts:79-87 | each tab's own timestamp alone decides whether it is refreshed |
| CoursesHook.Succeeded | src/lib/hooks/useCourses.ts:57-76 | enrol and withdraw report true exactly when the thunk fulfilled |
| CoursesHook.FetchedTabIsFresh | src/lib/hooks/useCourses.ts:79-87 | a tab fetched within five minutes is not refreshed and the other tab's answer is unaffected |
| ProfileSlice.OrElse | src/lib/redux/slices/profileSlice.ts:46-51 | an empty field takes its default and a present one is kept |
| ProfileSlice.ShapePayload | src/lib/redux/slices/profileSlice.ts:44-53 | the payload keeps the user id, defaults the language to english and each missing style field to its default, and has a style exactly when the response had a profile |
| ProfileSlice.ShouldFetch | src/lib/redux/slices/profileSlice.ts:61-73 | without a user id or a loaded profile the thunk always runs; otherwise only when the data is stale |
| ProfileSlice.NoRefetchAtFiveMinutes | src/lib/redux/slices/profileSlice.ts:61-73 | a loaded profile fetched exactly five minutes ago is not fetched again, one millisecond later it is |
| ProfileSlice.WithPayload | src/lib/redux/slices/profileSlice.ts:107-118 | an existing profile gets only its language and style overwritten; a missing one is created holding just the user id |
| ProfileSlice.FulfilledKeepsIdentity | src/lib/redux/slices/profileSlice.ts:110-115 | an existing profile keeps its id, name, email and image whatever user the payload names |
| ProfileSlice.ProfileStore.constructor | src/lib/redux/slices/profileSlice.ts:78-85 | the store starts with no profile, nothing loading, no errors and no timestamp |
| ProfileSlice.ProfileStore.SetProfile | src/lib/redux/slices/profileSlice.ts:92-94 | only the profile changes |
| ProfileSlice.ProfileStore.ClearProfileError | src/lib/redux/slices/profileSlice.ts:95-98 | both errors become null and nothing else changes |
| ProfileSlice.ProfileStore.FetchPending | src/lib/redux/slices/profileSlice.ts:102-105 | the learning-profile loading flag is set and its error cleared |
| ProfileSlice.ProfileStore.FetchFulfilled | src/lib/redux/slices/profileSlice.ts:107-118 | the profile takes the payload, loading stops and the timestamp is the clock |
| ProfileSlice.ProfileStore.FetchRejected | src/lib/redux/slices/profileSlice.ts:120-123 | loading stops and the error records the rejection message |
| TestScoring.CountCorrect | src/components/courses/ChapterQuiz.tsx:196-204 | the number of correct answers never exceeds the number of questions |
| TestScoring.UnansweredNeverCounts | src/components/courses/ChapterQuiz.tsx:137 | with every choice still -1 no answer counts as correct |
| TestScoring.AllCorrectCountsAll | src/components/courses/ChapterQuiz.tsx:196-204 | choosing every correct option counts every question |
| TestScoring.Score | src/components/courses/ChapterQuiz.tsx:206 | the score is the percentage of correct answers rounded to the nearest whole number, between 0 and 100 |
| TestScoring.Passed | src/components/courses/ChapterQuiz.tsx:383-397 | a result passes when the rounded score reaches the passing percentage; its meaning in answers is stated by PassedIffShare |
| TestScoring.PassedIffShare | src/components/courses/ChapterQuiz.tsx:383-397 | with the rounded score, c correct answers of n pass exactly when 200c >= (2 * passingScore - 1) * n, that is when the true share is at most half a percent below the passing score |
| TestScoring.ShownCorrectIsExact | src/components/courses/ChapterQuiz.tsx:414 | with at most a hundred questions the "Correct Answers" figure recovered from the rounded score is the true count |
| TestScoring.FormatTime | src/components/courses/ChapterQuiz.tsx:211-215 | the remaining seconds shown as minutes, a colon and the seconds padded to two digits; its shape is stated by FormatTimeDigits |
| TestScoring.FormatTimeDigits | src/components/courses/ChapterQuiz.tsx:211-215 | the clock shows whole minutes, a colon and exactly two digits of seconds |
| ChapterQuiz.DerivedQuiz | src/components/courses/ChapterQuiz.tsx:104-113 | a copied quiz keeps the base questions, time limit and passing score, and takes its chapter id and the course id before the first '-' |
| ChapterQuiz.QuizSession.constructor | src/components/courses/ChapterQuiz.tsx:131-139 | a loaded quiz starts on question 0 with every choice -1 and the full time limit in seconds |
| ChapterQuiz.QuizSession.SelectOption | src/components/courses/ChapterQuiz.tsx:172-178 | a choice is recorded at the current question only, and ignored once submitted or completed |
| ChapterQuiz.QuizSession.SubmitAnswer | src/components/courses/ChapterQuiz.tsx:191-194 | submitting marks the answer submitted and shows the explanation |
| ChapterQuiz.QuizSession.Complete | src/components/courses/ChapterQuiz.tsx:196-209 | completion sets the score from the count of correct choices and marks the quiz completed |
| ChapterQuiz.QuizSession.NextQuestion | src/components/courses/ChapterQuiz.tsx:180-189 | the next question is shown, or the last one completes the quiz; the explanation and submission are reset |
| ChapterQuiz.QuizSession.Tick | src/components/courses/ChapterQuiz.tsx:141-156 | each second counts down; the tick at one second completes the quiz with no time left; a completed or expired quiz does not change |
| ChapterQuiz.CountCorrectAnswers | src/components/courses/ChapterQuiz.tsx:198-204 | the counting loop finds exactly the number of correct choices |
| CourseExam.DerivedExam | src/components/courses/CourseExam.tsx:77-84 | a copied exam keeps the base questions, time limit and passing score and takes its course id and exam id |
| CourseExam.CertificateOrRetake | src/components/courses/CourseExam.tsx:359-404 | exactly one of the certificate and the retake button appears |
| CourseExam.ExamSession.constructor | src/components/courses/CourseExam.tsx:97-105 | a loaded exam starts on question 0 with every choice -1 and the full time limit in seconds |
| CourseExam.ExamSession.SelectOption | src/components/courses/CourseExam.tsx:138-144 | a choice is recorded at the current question only, and ignored once submitted or completed |
| CourseExam.ExamSession.SubmitAnswer | src/components/courses/CourseExam.tsx:157-160 | submitting marks the answer submitted and shows the explanation |
| CourseExam.ExamSession.Complete | src/components/courses/CourseExam.tsx:162-175 | completion sets the score from the count of correct choices and marks the exam completed |
| CourseExam.ExamSession.NextQuestion | src/components/courses/CourseExam.tsx:146-155 | the next question is shown, or the last one completes the exam |
| CourseExam.ExamSession.Tick | src/components/courses/CourseExam.tsx:107-122 | each second counts down; the tick at one second completes the exam with no time left |
| CourseExam.ExamSession.Retake | src/components/courses/CourseExam.tsx:393-399 | a retake reopens the exam on question 0 with every choice -1 and the full time limit |
| ChapterLearning.ChapterPager.constructor | src/components/courses/ChapterLearning.tsx:14 | paging starts on page 1 |
| ChapterLearning.ChapterPager.NextPage | src/components/courses/ChapterLearning.tsx:17-21 | Next moves forward one page and stays on the last page |
| ChapterLearning.ChapterPager.PrevPage | src/components/courses/ChapterLearning.tsx:23-27 | Previous moves back one page and stays on the first page |
| ChapterLearning.ChapterPager.SelectPage | src/components/courses/ChapterLearning.tsx:162-166 | a page button goes to its own page, index plus one |
| InsertionOrderedSet.FirstsDistinct | src/components/courses/CoursesOverview.tsx:66 | the first-occurrence list holds every element of the input once and nothing else |
| InsertionOrderedSet.FirstsSnoc | src/components/courses/CoursesOverview.tsx:66 | one more element is kept at the end exactly when it is new |
| InsertionOrderedSet.InsertAllFirsts | src/components/courses/CoursesOverview.tsx:66 | inserting more elements into a Set extends the first-occurrence list of what was inserted so far |
| InsertionOrderedSet.SetOrderIsFirstOccurrence | src/components/courses/CoursesOverview.tsx:66 | Array.from(new Set(xs)) lists every distinct element once, in first-occurrence order |
| CourseCatalogue.Matches | src/components/courses/CoursesOverview.tsx:74-79 | the filter callback: a course matches when its category and level equal the chosen ones or the "All" choice, and its lower-cased title contains the lower-cased search; FilteredCourses and DefaultFiltersKeepAll state what it selects |
| CourseCatalogue.FilteredCourses | src/components/courses/CoursesOverview.tsx:74-79 | a course is shown exactly when it passes the category, level and case-insensitive title tests |
| CourseCatalogue.FilteredCoursesInOrder | src/components/courses/CoursesOverview.tsx:74-79 | the filtered list keeps the catalogue's order |
| CourseCatalogue.DefaultFiltersKeepAll | src/components/courses/CoursesOverview.tsx:36-38 | with the initial or reset filters every course is shown |
| CourseCatalogue.CategoryColumn | src/components/courses/CoursesOverview.tsx:66 | the mapped column holds each course's category at its position |
| CourseCatalogue.Categories | src/components/courses/CoursesOverview.tsx:65-67 | the category drop-down: "All Categories" then the Set of course categories as an array; CategoriesFirstOccurrence states its contents and order |
| CourseCatalogue.CategoriesFirstOccurrence | src/components/courses/CoursesOverview.tsx:65-67 | the drop-down is "All Categories" followed by each course category once, in first-occurrence order, and nothing else |
| ChatHistoryList.FilteredConversations | src/components/learning/ChatHistory.tsx:58-60 | a conversation is listed exactly when its lower-cased title contains the lower-cased search term |
| ChatHistoryList.FilteredConversationsInOrder | src/components/learning/ChatHistory.tsx:58-60 | the filtered list keeps the conversations' order |
| ChatHistoryList.EmptySearchKeepsAll | src/components/learning/ChatHistory.tsx:26 | an empty search lists every conversation |
| ChatHistoryList.AfterFetch | src/components/learning/ChatHistory.tsx:31-53 | without both ids nothing changes; otherwise loading always ends and the list is replaced only by a successful answer, a missing list counting as empty |
| EmailPattern.LocalPartAll | src/components/auth/SignupForm.tsx:52 | the local part is accepted exactly when it is non-empty and every character is one of the listed ones |
| EmailPattern.DomainChars | src/components/auth/SignupForm.tsx:52 | every character of an accepted domain is a letter, digit, hyphen or dot |
| EmailPattern.ValidEmailShape | src/components/auth/SignupForm.tsx:52 | an accepted address has exactly one '@', after a non-empty local part, and no white space |
| EmailPattern.DomainOfLabels | src/components/auth/SignupForm.tsx:52 | a domain written as dot-joined pieces is accepted exactly when every piece is a label of 1 to 63 letters, digits and inner hyphens |
| EmailPattern.DomainLabels | src/components/auth/SignupForm.tsx:52 | an address with a valid local part is accepted exactly when every dot-separated piece of its domain is a label |
| SignupForm.With | src/components/auth/SignupForm.tsx:21-25 | an edit writes its own field and leaves the others as they were |
| SignupForm.Check | src/components/auth/SignupForm.tsx:36-79 | a failing check records its message under its own field and keeps every other entry |
| SignupForm.SignupErrors | src/components/auth/SignupForm.tsx:36-79 | each field has an error exactly when its own check fails: blank name, address rejected by the pattern, password under 8 UTF-16 code units, confirmation empty or different, each with its message |
| SignupForm.ValidateSignup | src/components/auth/SignupForm.tsx:36-79 | the checks in order record exactly the specified errors, and the form is valid exactly when none was recorded |
| SignupForm.CheckName | src/components/auth/SignupForm.tsx:41-44 | a name that trims to nothing records "Full name is required" and lowers validity; otherwise nothing changes |
| SignupForm.CheckEmail | src/components/auth/SignupForm.tsx:47-57 | an empty or pattern-rejected address records its message; validity stays tied to the errors being empty |
| SignupForm.CheckPassword | src/components/auth/SignupForm.tsx:60-66 | an empty password or one under 8 UTF-16 code units records its message; validity stays tied to the errors being empty |
| SignupForm.CheckConfirm | src/components/auth/SignupForm.tsx:69-75 | an empty or different confirmation records its message; validity stays tied to the errors being empty |
| SignupForm.SignupFormState.constructor | src/components/auth/SignupForm.tsx:10-19 | the form starts with empty fields and no errors |
| SignupForm.SignupFormState.HandleInputChange | src/components/auth/SignupForm.tsx:21-34 | an edit writes its field and clears that field's error only, when it had one |
| SignupForm.SignupFormState.ValidateForm | src/components/auth/SignupForm.tsx:36-79 | validation replaces the errors by the specified ones and reports validity exactly when there are none |
| LoginForm.With | src/components/auth/LoginForm.tsx:19-23 | an edit writes its own field and keeps the other |
| LoginForm.LoginErrors | src/components/auth/LoginForm.tsx:34-59 | the e-mail has an error exactly when the pattern rejects it, the password exactly when it is empty |
| LoginForm.ValidateLogin | src/components/auth/LoginForm.tsx:34-59 | both checks always run and the form is valid exactly when no error was recorded |
| LoginForm.LoginFormState.constructor | src/components/auth/LoginForm.tsx:10-17 | the form starts with empty fields and no errors |
| LoginForm.LoginFormState.HandleInputChange | src/components/auth/LoginForm.tsx:19-32 | an edit writes its field and clears that field's error only |
| LoginForm.LoginFormState.ValidateForm | src/components/auth/LoginForm.tsx:34-59 | validation replaces the errors by the specified ones and reports validity exactly when there are none |
| ProfileForm.Issues | src/components/profile/ProfileContent.tsx:196-203 | a parse reports exactly the failing rules, in schema order |
| ProfileForm.RecordKeys | src/components/profile/ProfileContent.tsx:199-202 | after recording, the keys are the ones present before plus the paths of the issues |
| ProfileForm.RecordAppend | src/components/profile/ProfileContent.tsx:192-226 | recording two issue lists in turn equals recording their concatenation |
| ProfileForm.IssuesAppend | src/components/profile/ProfileContent.tsx:194-225 | the issues of two schemas in turn are the first schema's issues then the second's |
| ProfileForm.RecordLastWins | src/components/profile/ProfileContent.tsx:199-202 | the message kept for a path is that of the last failing rule for it |
| ProfileForm.RecordUnchanged | src/components/profile/ProfileContent.tsx:199-202 | a key no issue names keeps its value |
| ProfileForm.RecordIssues | src/components/profile/ProfileContent.tsx:194-205 | the forEach loop records every issue of the parse in turn and reports failure exactly when there was one |
| ProfileForm.ValidateForm | src/components/profile/ProfileContent.tsx:188-228 | validation records the issues of the profile schema and, when a password field is filled in, of the password schema, and is valid exactly when there are none |
| ProfileForm.PathPresence | src/components/profile/ProfileContent.tsx:199-202 | a key is recorded exactly when some rule for it fails |
| ProfileForm.RulesForPath | src/components/profile/ProfileContent.tsx:199-202 | a key reported by one block of rules is recorded exactly when one of them fails |
| ProfileForm.RuleForPath | src/components/profile/ProfileContent.tsx:199-202 | a key reported by one rule only is recorded exactly when that rule fails |
| ProfileForm.FormRules | src/components/profile/ProfileContent.tsx:26-52 | the rules checked: the profile schema's four, then the password schema's seven when a password change is asked for; laid out by FormRulesLayout |
| ProfileForm.FormRulesLayout | src/components/profile/ProfileContent.tsx:26-52 | four rules, or eleven with the password schema, each reporting under the path of its schema position |
| ProfileForm.StrongPassword | src/components/profile/ProfileContent.tsx:41-47 | the new-password rules: at least 8 UTF-16 code units, a capital, a small letter, a digit and another character; used by NewPasswordError |
| ProfileForm.FirstNameError | src/components/profile/ProfileContent.tsx:27 | the first name has an error exactly when it is shorter than 2 UTF-16 code units |
| ProfileForm.LastNameError | src/components/profile/ProfileContent.tsx:28 | the last name has an error exactly when it is shorter than 2 UTF-16 code units |
| ProfileForm.EmailError | src/components/profile/ProfileContent.tsx:29 | the e-mail has an error exactly when the schema's e-mail check rejects it |
| ProfileForm.BioError | src/components/profile/ProfileContent.tsx:31 | the bio has an error exactly when it is longer than 500 UTF-16 code units |
| ProfileForm.NoFormErrorFromValidation | src/components/profile/ProfileContent.tsx:188-228 | validation never records the form key; only a failed save does |
| ProfileForm.CurrentPasswordError | src/components/profile/ProfileContent.tsx:40-52 | the current password is reported missing exactly when the password schema is consulted and it is empty |
| ProfileForm.NewPasswordError | src/components/profile/ProfileContent.tsx:40-52 | the new password has an error exactly when the password schema is consulted and it is not strong (under 8 UTF-16 code units, or missing a capital, a small letter, a digit or another character) |
| ProfileForm.ConfirmPasswordError | src/components/profile/ProfileContent.tsx:40-52 | the confirmation has an error exactly when the password schema is consulted and it differs from the new password |
| ProfileForm.ValidIffNoErrors | src/components/profile/ProfileContent.tsx:188-228 | the form is valid exactly when no error is recorded |
| ProfileForm.MissingSymbolReportedLast | src/components/profile/ProfileContent.tsx:42-47 | when the new password lacks a symbol, that message is the one kept, overwriting the earlier ones |
| ProfileForm.MismatchReported | src/components/profile/ProfileContent.tsx:49-52 | a differing confirmation is reported under confirmPassword with the mismatch message |
| ProfileForm.TrimTrailingSpace | src/components/profile/ProfileContent.tsx:249 | trimming a name with one trailing space removes just that space |
| ProfileForm.RejoinParts | src/components/profile/ProfileContent.tsx:110-112 | rejoining the first word with the rest of the split gives the name back |
| ProfileForm.SplitName | src/components/profile/ProfileContent.tsx:108-113 | the stored name cut at its first space into first and last name; its round trip is NameRoundTrip |
| ProfileForm.FullName | src/components/profile/ProfileContent.tsx:249 | the saved name: first and last name joined by a space and trimmed; its round trip is NameRoundTrip |
| ProfileForm.NameRoundTrip | src/components/profile/ProfileContent.tsx:108-113 | splitting a stored name for editing and rejoining it on save gives the name back |
| ProfileForm.SetNotification | src/components/profile/ProfileContent.tsx:156-168 | a notifications key sets its own flag only; an unknown key changes nothing |
| ProfileForm.ApplyChange | src/components/profile/ProfileContent.tsx:153-176 | a nested name outside notifications changes nothing and only a check box changes a notification flag |
| ProfileForm.ClearError | src/components/profile/ProfileContent.tsx:178-184 | only the error under the changed input's own name is removed, and only when it was non-empty |
| ProfileForm.ProfileEditor.constructor | src/components/profile/ProfileContent.tsx:58-79 | the editor starts with the initial profile, no errors, not editing and no message |
| ProfileForm.ProfileEditor.Loaded | src/components/profile/ProfileContent.tsx:92-130 | the loaded name is split into first and last name and the fetched fields stored, nothing else changes |
| ProfileForm.ProfileEditor.HandleChange | src/components/profile/ProfileContent.tsx:153-185 | the profile takes the change and the changed input's error is cleared |
| ProfileForm.ProfileEditor.Validate | src/components/profile/ProfileContent.tsx:188-228 | the errors become the recorded issues and validity is reported exactly when there are none |
| ProfileForm.ProfileEditor.SaveSucceeded | src/components/profile/ProfileContent.tsx:296-310 | a successful save clears the password fields, shows the success message and leaves edit mode |
| ProfileForm.ProfileEditor.SaveFailed | src/components/profile/ProfileContent.tsx:311-315 | a failed save records its message under the form key only |
| CourseChat.WelcomeMessages | src/components/learning/CourseChatWindow.tsx:123-157 | inside a chapter the bot shows a chapter welcome and an opening question, elsewhere one general greeting, numbered from "1" |
| CourseChat.ChatWindow.constructor | src/components/learning/CourseChatWindow.tsx:91-96 | the panel starts empty, in its welcome layout, on the first course and its first module |
| CourseChat.ChatWindow.Initialise | src/components/learning/CourseChatWindow.tsx:123-157 | the course or chapter change replaces the conversation by the welcome messages and nothing else |
| CourseChat.ChatWindow.HandleSendMessage | src/components/learning/CourseChatWindow.tsx:173-185 | blank text is ignored; otherwise the untrimmed text is appended as the user's message, the input cleared and the welcome layout left |
| CourseChat.ChatWindow.HandleCourseChange | src/components/learning/CourseChatWindow.tsx:206-210 | choosing a course also selects its first module and changes nothing else |
| CourseChat.ChatWindow.HandleModuleChange | src/components/learning/CourseChatWindow.tsx:212-214 | choosing a module of the selected course changes only the module |
| DashboardHeader.Greeting | src/components/dashboard/DashboardHeader.tsx:44-49 | morning before 12, afternoon from 12 to before 18, evening from 18, each exactly on its hours |
| DashboardHeader.AfterLoad | src/components/dashboard/DashboardHeader.tsx:18-42 | without a user nothing changes; otherwise loading ends, a success sets the profile, a 404 is no error and any other failure records a non-empty message |
| Middleware.IsPublicPath | src/middleware.ts:19-21 | a path is public when some entry of the list equals it or is a prefix of it; PublicIffRooted states which paths that admits |
| Middleware.IsApiRoute | src/middleware.ts:24-26 | a path is an API route when it begins with "/api/"; Decide states how that chooses between the 401 answers and the redirect |
| Middleware.Filter | src/middleware.ts:28-75 | the middleware as written: Decide applied with the public-path test; EveryRequestPasses and ApiRoutesNeverRefused state its behaviour |
| Middleware.Decide | src/middleware.ts:28-75 | a public path passes; otherwise no token gives 401 "Unauthorized" on an API route and a login redirect elsewhere, a failing token 401 "Invalid token" or the redirect; the request passes exactly when public or verified |
| Middleware.PublicIffRooted | src/middleware.ts:6-21 | because "/" is an entry and entries match as prefixes, a path is public exactly when it starts with '/' |
| Middleware.MatchKeepsRoot | src/middleware.ts:20 | a path that equals or extends an entry beginning with '/' begins with '/' |
| Middleware.PrefixOfEntryIsPublic | src/middleware.ts:20 | prefix matching also opens paths that only begin like an entry, such as "/auth/loginX" |
| Middleware.EveryRequestPasses | src/middleware.ts:28-35 | every request path passes whatever its token |
| Middleware.ApiRoutesNeverRefused | src/middleware.ts:40-65 | the 401 answers for API routes are never given |
| Middleware.IntendedGuardsPages | src/middleware.ts:6-21 | "/dashboard" without a token passes the filter as written but is redirected to login under the intended list |
| Middleware.IntendedGuardsApi | src/middleware.ts:6-21 | "/api/courses" with a failing token passes as written but is refused 401 "Invalid token" under the intended list |
| Middleware.FilterIntended | src/middleware.ts:6-75 | with "/" matched as itself, a request passes only on the root, an auth page or auth route, or with a token that verifies |
| Middleware.IntendedPublicIsAuth | src/middleware.ts:6-21 | the intended public list leaves unchecked only the root itself and paths under "/auth/" and "/api/auth/" |
| Cookies.SplitPairShape | src/app/api/conversations/route.ts:9 | neither destructured part holds an '=', and the value is undefined exactly when the segment has no '=' |
| Cookies.PairsOfAt | src/app/api/conversations/route.ts:7-9 | the i-th parsed pair is the parse of the i-th segment |
| Cookies.Pairs | src/app/api/conversations/route.ts:7-9 | the header split at every ';' and each segment split at '=' into a name and a value; PairsOfAt and SplitPairShape state the result |
| Cookies.SplitAtFirst | src/app/api/conversations/route.ts:9 | splitting at a first separator gives the text before it, then the split of the rest |
| Cookies.NameValuePair | src/app/api/conversations/route.ts:9 | a segment name=value without a further '=' gives that name and value |
| Cookies.SecondEqualsTruncates | src/app/api/conversations/route.ts:9 | whatever follows a second '=' is cut off the value |
| Cookies.SpaceBeforeEqualsNoMatch | src/app/api/conversations/route.ts:9 | a space before the '=' stays in the name, so the segment matches no cookie of the bare name |
| Cookies.FirstMatch | src/app/api/conversations/route.ts:6-15 | the loop reader: the value of the first pair with the name, or null; FirstMatchNull, FirstMatchAt and GetCookieValueFirst state it |
| Cookies.FirstMatchNull | src/app/api/conversations/route.ts:6-15 | the loop reader answers null exactly when no segment has the name |
| Cookies.FirstMatchAt | src/app/api/conversations/route.ts:6-15 | the first segment with the name decides the answer |
| Cookies.FirstMatchStep | src/app/api/conversations/route.ts:8-13 | one loop step: the current segment answers when it has the name, else the rest of the header does |
| Cookies.GetCookieValueFirst | src/app/api/conversations/route.ts:6-15 | the loop returns the value of the first segment whose name matches, or null |
| Cookies.FirstToken | src/app/api/conversations/route.ts:6-15 | the loop reader's token is absent exactly when no segment has the name or the first such segment has no '=' |
| Cookies.Jar | src/app/api/chat/route.ts:145-149 | the reduce reader: a dictionary from each named segment to its value, later segments overwriting; JarKeys and JarLastWins state it |
| Cookies.JarKeys | src/app/api/chat/route.ts:145-149 | the reduce dictionary's keys are exactly the non-empty segment names |
| Cookies.JarLastWins | src/app/api/chat/route.ts:145-149 | a repeated name keeps the value of its last segment |
| Cookies.PairsOfSnoc | src/app/api/chat/route.ts:145 | parsing one more segment appends its pair |
| Cookies.JarSnoc | src/app/api/chat/route.ts:146-148 | a named segment overwrites its entry and an unnamed one is skipped |
| Cookies.JarStep | src/app/api/chat/route.ts:145-149 | one reduce step over the header's segments updates the dictionary as the callback does |
| Cookies.CookieJar | src/app/api/chat/route.ts:145-149 | the reduce builds exactly the specified dictionary |
| Cookies.LastOrUndefined | src/app/api/auth/me/route.ts:71-79 | the empty name never has a value; otherwise the last segment's value, undefined when none has the name |
| Cookies.LastOrNull | src/app/api/chat/route.ts:144-152 | an empty value becomes null, so the token is present exactly when the undefined-returning reader gives a non-empty value, and then it is that value |
| Cookies.UniqueNameReadersAgree | src/app/api/conversations/route.ts:6-15 | with a name that occurs once the loop and reduce readers give the same value |
| Cookies.RepeatedNameReadersDiffer | src/app/api/chat/route.ts:144-152 | with a name that occurs twice the loop reader keeps the first value and the reduce reader the last |
| Http.Fail | src/app/api/auth/me/route.ts:16-19 | an error answer carries its status and an error object with the message |
| Http.Answer | src/app/api/auth/me/route.ts:60 | a success carries status 200 and the returned value |
| Http.Identify | src/app/api/auth/me/route.ts:14-32 | the caller has no token exactly when it is missing or empty, is unverified exactly when verification fails, and otherwise carries the verified payload |
| Http.OrElse | src/app/api/course-chats/sessions/route.ts:71-72 | a missing or empty string gives way to the default; a present one is kept |
| Http.OrNull | src/app/api/course-chats/sessions/route.ts:70 | a missing or empty string becomes null; a present one is kept |
| AuthCheckRoute.Check | src/app/api/auth/check/route.ts:4-52 | every answer has status 200; authenticated, with the user's claims, exactly when the token verifies; "No auth token found" without a token and "Invalid token" when it fails |
| AuthMeRoute.Me | src/app/api/auth/me/route.ts:5-68 | 401 without a token or with a failing one; 404 exactly when the verified user id is not in the user table; 200 with that user's row exactly when it is |
| ConversationsRoute.SaveChecks | src/app/api/conversations/route.ts:18-50 | 401 without a token or with a verified token lacking a user id, 500 when the token fails or the body is not JSON, 400 exactly when the course id or messages are missing; a passing save carries the caller's id and the body's fields |
| ConversationsRoute.Upsert | src/app/api/conversations/route.ts:52-86 | the save adds or updates exactly the caller's row for the course; an existing row keeps its id, a new one gets the fresh id; other rows are unchanged |
| ConversationsRoute.Retrieve | src/app/api/conversations/route.ts:97-152 | 401 / 500 / 401 / 400 "Course ID is required" in order; otherwise the caller's row for the course, or an empty message list when there is none |
| ConversationsRoute.SaveThenRetrieve | src/app/api/conversations/route.ts:18-152 | a saved chat is what the same caller reads back for that course |
| ConversationsRoute.SecondSaveReplaces | src/app/api/conversations/route.ts:62-81 | saving again for the same user and course replaces the messages and keeps the first row id |
| ConversationsRoute.ConversationStore.Post | src/app/api/conversations/route.ts:18-94 | a refused save changes nothing and returns its refusal; a passing one upserts the row and returns its id |
| LearningStyleRoute.Start | src/app/api/assessment/learning-style/route.ts:18-72 | 401 without a token and 401 "Invalid authentication token" when it fails; 500 when the verified token carries no user id, since the lookup throws; 200 exactly when it verifies with a user id, with the stored profile exactly when the user has one and its assessment date, or the clock when it has none |
| LearningStyleRoute.SaveChecks | src/app/api/assessment/learning-style/route.ts:75-171 | 401 and 401 for a missing or failing token, 500 for a body that is not JSON, 400 exactly when the learning style is missing, then 500 when the token carries no user id, since the lookup throws; a save passes exactly otherwise and carries the caller's id and the styles |
| LearningStyleRoute.SaveProfile | src/app/api/assessment/learning-style/route.ts:127-157 | update or create: the user's one profile holds the submitted styles and the save time, other users' profiles are unchanged |
| LearningStyleRoute.SaveThenStart | src/app/api/assessment/learning-style/route.ts:18-171 | after a save the same caller's next GET finds the saved styles, dated at the save |
| LearningStyleRoute.ProfileStore.Post | src/app/api/assessment/learning-style/route.ts:75-171 | a refused save, including one whose token carries no user id, changes nothing and returns its refusal; a passing one stores the profile dated now and returns it |
| SessionsRoute.NewRow | src/app/api/course-chats/sessions/route.ts:43-78 | the inserted row carries the caller, the course, the chapter id or null, the title and language or their defaults, an empty context, the default learning-profile id, active, created and updated now |
| SessionsRoute.CreateChecks | src/app/api/course-chats/sessions/route.ts:6-34 | 401 without a token, 500 "Failed to create chat session" exactly when the token fails or the body is not JSON, 401 for a verified token without a user id, 400 exactly when the course id is missing |
| SessionsRoute.RowsFor | src/app/api/course-chats/sessions/route.ts:128-134 | a row is listed exactly when it belongs to the user and the virtual chapter |
| SessionsRoute.List | src/app/api/course-chats/sessions/route.ts:92-144 | 401 / 500 "Failed to fetch chat sessions" / 401 / 400 in order; 200 exactly when signed in with a chapter id, listing that user's rows of that chapter |
| SessionsRoute.RowsForAppend | src/app/api/course-chats/sessions/route.ts:128-134 | adding a row extends a listing exactly when the row belongs to that user and chapter |
| SessionsRoute.CreateThenList | src/app/api/course-chats/sessions/route.ts:6-144 | a session created with a chapter id appears in that chapter's listing for the same caller, the rows listed before unchanged |
| SessionsRoute.SessionStore.Create | src/app/api/course-chats/sessions/route.ts:6-90 | a refused create inserts nothing; a passing one appends one new row and returns it |
| SocketRoute.Prepare | src/app/api/socket/route.ts:10-66 | 401 without a token or for a verified token without a user id; a failing token passes; 500 for a body that is not JSON, 400 without a message; the frame takes the body's fields with the defaults "web_user", the default profile and "english" |
| SocketRoute.Post | src/app/api/socket/route.ts:10-108 | the frame is sent exactly when the checks pass and the connection opens (200); a refused request keeps its refusal, a failed connection is 503 and a timeout 504 |
| SocketRoute.UnverifiedTokenPasses | src/app/api/socket/route.ts:22-33 | a token that does not verify still gets a question through to the agent |
| ChatRoute.Respond | src/app/api/chat/route.ts:8-141 | 401 without a token, 401 "Invalid authentication token" unless signed in, 400 without a message, 500 exactly when the agent wrote to its error stream, and 200 with the stored question and the agent's output otherwise |
| ChatRoute.Inserted | src/app/api/chat/route.ts:43-115 | the ChatMessage rows a request writes: both the question (order 0, in the request's session) and the answer (order 1) exactly when the reply is 200, only the question exactly when the agent's error stream makes it 500, none when refused earlier |
| ChatRoute.MessageTable.Post | src/app/api/chat/route.ts:8-141 | the handler answers as Respond and appends exactly the rows Inserted names to the message table |
| ChatRoute.StoredAsReturned | src/app/api/chat/route.ts:67-133 | on a 200 reply the stored question and answer carry the ids and contents the reply returns, the question marked as the user's and the answer as the agent's |
| LearningProfilesRoute.Samples | src/app/api/learning-profiles/route.ts:42-61 | two sample profiles with distinct ids, both for the requested user, created now and a day earlier |
| LearningProfilesRoute.List | src/app/api/learning-profiles/route.ts:6-123 | 400 without a user id, checked before the cookie; 401 without a token; 403 exactly when the token does not verify to that same user; 200 with the samples exactly when it does |
| LearningProfilesRoute.ProfilesAreTheRequestedUsers | src/app/api/learning-profiles/route.ts:30-39 | whenever profiles are returned they carry the requested id and the token verified to that id |
| EnrolledCoursesRoute.List | src/app/api/user/enrolled-courses/route.ts:6-112 | 401 without a token and 401 unless signed in; 200 exactly when signed in, with two courses of distinct ids whose chapters name their course and are numbered from 1 |
| EnrolledCoursesRoute.EnrolledWellFormed | src/app/api/user/enrolled-courses/route.ts:31-76 | every sample chapter names the course it is listed under and chapters are numbered 1, 2 in order |
| ImageRoute.ContentType | src/app/api/getImage/route.ts:30-40 | jpg and jpeg give image/jpeg, gif image/gif, webp image/webp, compared in lower case, and every other extension image/png |
| ImageRoute.Get | src/app/api/getImage/route.ts:5-62 | 400 without a path, 500 when decoding fails, 403 exactly when the path is outside the images directory, 404 exactly when it is allowed but absent, 200 with the file's type and cache header exactly when allowed, present and readable |
| ImageRoute.WindowsDirAnywhere | src/app/api/getImage/route.ts:17-22 | the substring test lets through any path with the Windows images directory anywhere inside it |
| ImageRoute.CaseInsensitive | src/app/api/getImage/route.ts:30-40 | the content type of an extension does not depend on its letter case |
| ImageRoute.UpperCaseExtensions | src/app/api/getImage/route.ts:30-40 | an upper-case `.JPG` is served as JPEG and an unlisted `.svg` as PNG |

## Left out

- Floating point: the difflib ratio, the 30% valid-word share and the 0.8 chunk factor are stated in exact integer or rational arithmetic, which agrees with the source for every input the model admits except in TestScoring.Score, below.
- TestScoring.Score: rounds the exact share of correct answers half up, where the source rounds the double `correct / n * 100`, which can fall just below a half: 23 of 40 and 46 of 80 (the only such inputs with at most 100 questions) score 57 in the source and 58 here, and larger tests differ too, such as 69 of 120 and 29 of 200.
- The classifier (model loading and inference), NLTK's corpus and `word_tokenize`, and difflib's matching-block search are parameters: a function giving four values in {0, 1}, a dictionary set, a tokenizer and the matching-block count.
- The FastAPI and CORS set-up of the assessment server is framework plumbing and not modelled.
- Timers and streaming: the `ReadableStream` emitter around the markdown splitter, and every `setTimeout`/`setInterval`; the quiz and exam clocks are modelled as one `Tick` per second.
- Network and process I/O: `fetch`, the WebSocket client, the spawned tutor agent and the OpenAI image calls are not modelled; where a handler depends on their outcome, the outcome is a parameter.
- The database: each table a route touches is a map or a list in a store class (the chat route's ChatMessage rows are ChatRoute.MessageTable); connection failures and the SQL text are not modelled, so the 500 answers that only a failing query can produce are not reached.
- MarkdownChunks.ChunkSize: counts positions and sizes in characters (code points), where the source's `length`, `substring` and `text[i]` count UTF-16 code units; a text with characters above U+FFFF is cut at other places, and a cut inside a surrogate pair cannot be expressed.
- MarkdownChunks.BackOff: counts positions and sizes in characters (code points), where the source's `length`, `substring` and `text[i]` count UTF-16 code units; a text with characters above U+FFFF is cut at other places, and a cut inside a surrogate pair cannot be expressed.
- MarkdownChunks.BreakPoint: counts positions and sizes in characters (code points), where the source's `length`, `substring` and `text[i]` count UTF-16 code units; a text with characters above U+FFFF is cut at other places, and a cut inside a surrogate pair cannot be expressed.
- MarkdownChunks.FindBreakPoint: counts positions and sizes in characters (code points), where the source's `length`, `substring` and `text[i]` count UTF-16 code units; a text with characters above U+FFFF is cut at other places, and a cut inside a surrogate pair cannot be expressed.
- MarkdownChunks.SplitText: counts positions and sizes in characters (code points), where the source's `length`, `substring` and `text[i]` count UTF-16 code units; a text with characters above U+FFFF is cut at other places, and a cut inside a surrogate pair cannot be expressed.
- MarkdownChunks.SplitTextIntoChunks: counts positions and sizes in characters (code points), where the source's `length`, `substring` and `text[i]` count UTF-16 code units; a text with characters above U+FFFF is cut at other places, and a cut inside a surrogate pair cannot be expressed.
- MarkdownChunks.ChunksFromSizes: counts positions and sizes in characters (code points), where the source's `length`, `substring` and `text[i]` count UTF-16 code units; a text with characters above U+FFFF is cut at other places, and a cut inside a surrogate pair cannot be expressed.
- MarkdownChunks.SplitTextSizes: counts positions and sizes in characters (code points), where the source's `length`, `substring` and `text[i]` count UTF-16 code units; a text with characters above U+FFFF is cut at other places, and a cut inside a surrogate pair cannot be expressed.
- MarkdownChunks.SplitMarkdownIntoChunks: compares the text's UTF-16 length with 100 as the source does, but counts positions and sizes in characters (code points), where the source's `length`, `substring` and `text[i]` count UTF-16 code units; a text with characters above U+FFFF is cut at other places, and a cut inside a surrogate pair cannot be expressed.
- SessionsRoute.List: returns the caller's rows in table order; the source's `ORDER BY "createdAt" DESC` (newest first) is not modelled.
- MarkdownChunks.SplitMarkdownIntoChunks: on the structure-aware path only states that no chunk is blank, not how the chunks cover the text, because that path drops blank chunks and re-fences code blocks.
- Regular expressions are not executed: the matches of the markdown element patterns, the mermaid-block pattern and the image-tag pattern are inputs (sorted match lists or a cut into pieces); the e-mail pattern and the mermaid node pattern are written out as recognisers.
- `verifyToken` (jsonwebtoken) is a parameter returning an optional payload; a claim it leaves out is the empty string.
- The zod `.email()` check of the profile schema is a parameter, `emailAccepted`.
- Lower-casing is ASCII only, both for JavaScript's `toLowerCase` and for Python's `str.lower` (src/learning_style_model/server.py:25,28); full Unicode case mapping is not modelled.
- `path.normalize`, `path.resolve`, `path.extname` and `decodeURIComponent` in the image route are parameters; a decoding error is `None`.
- SocketRoute.Prepare: a `language` sent as JSON `null` is treated like a given value; the model does not tell `null` apart from a string there.
- The `details` field of the learning-style route's 500 answers, which carries the exception's message, is not modelled; those answers carry only "Internal server error".
- The `catch` of src/app/api/auth/check/route.ts:44-51 cannot be reached in the model, because token verification is total there.
- Cookie names such as `__proto__` that collide with object prototype members in the `reduce` dictionaries are not modelled.
- The middleware's `matcher` configuration (which paths Next.js runs it on) is framework configuration and not modelled.
- The pasted second copies inside src/app/api/chat/markdown/route.ts, src/app/api/socket/route.ts, src/app/api/learning-profiles/route.ts, src/app/api/chat/route.ts and src/app/api/user/enrolled-courses/route.ts are identical in behaviour and not modelled separately.
- The thin route wrappers (login, signup, logout, users, courses, test), `saveImage`, the repositories, the canvas and animation components, DOM measurement and presentation-only components carry no decision logic beyond a required-field check in front of I/O, and are not modelled.

## Findings

| source | as written | input that shows it | evidently intended | confidence | as-written member | corrected member |
|---|---|---|---|---|---|---|
| src/middleware.ts:6-21 | "/" is a public entry and entries match as prefixes, so every path is public and no page or API route is ever guarded | "/dashboard" with no `auth_token` cookie passes instead of being redirected to login | "/" public as itself only | not executed | Middleware.IntendedGuardsPages | Middleware.FilterIntended |
