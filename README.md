# IA Pour Tous — a verified model of the learning platform's core

IA Pour Tous is a French-language e-learning platform. Learners browse a catalogue of AI courses, read modules and pass quizzes that move their enrollment's progress. They pay for a plan through the Wave mobile-money provider. Administrators generate courses and blog posts with an AI gateway and publish them. An offline service worker caches course content.

This project models the parts of that system that hold logic, one Dafny module per source file:

- `CourseReader` (`src/pages/CourseReader.tsx`): quiz scoring, the attempt log, and the enrollment progress that a passed quiz writes. The page's state is the class `CourseReader.Reader`.
- `WaveCheckout` (`supabase/functions/wave-checkout/index.ts`): the checkout function's validation chain, the pending payment row, the provider's session request with its callback URLs, and what each provider answer does to the row.
- `WaveWebhook` (`supabase/functions/wave-webhook/index.ts`): a completed-session event completes its payment and activates the payer's plan.
- `PaymentSuccess` (`src/pages/PaymentSuccess.tsx`): the success page completes a payment that is still pending and activates the plan of the user who is signed in.
- `Reconciliation` relates the two writers above. It shows that each is idempotent, which states survive each, and when the order of the two matters.
- `PaymentPage` (`src/pages/Payment.tsx`): the plan catalogue and its fallback, the body posted to the checkout function, and the pay button's status machine with the demo branch.
- `AiGateway`, `GenerateCourse`, `GenerateBlog` (`supabase/functions/generate-course/index.ts`, `supabase/functions/generate-blog/index.ts`): the JSON extraction, the status mapping of refused AI calls, the course tree with its image merge, and the article with its fallback.
- `CourseGenerator` (`src/components/admin/AdminCourseGenerator.tsx`): asking for ideas or a course, and publishing a generated tree as course, module, quiz and question rows, with the page's defaults and skip-on-error rules. The panel is the class `CourseGenerator.Generator`.
- `Admin` (`src/pages/Admin.tsx`): the role gate, the overview statistics, course creation and deletion, and the blog editor's draft and publication. The console is the class `Admin.Console`.
- `Dashboard` (`src/pages/Dashboard.tsx`): the learner's figures, plan badge, upgrade banner and greeting.
- `Catalogue` (`src/pages/Catalogue.tsx`): the catalogue query, the search filter and the card labels.
- `ServiceWorker` (`public/sw.js`): cache cleanup on activation, the routing of requests to caching strategies, what each strategy serves and stores, the download block, and which listener's reply the page gets (see "## Findings").

Shared modules:

- `Records` holds the table rows and a `Store` class with one field per table. Methods that write the store name the tables they change in their `modifies` frame, so every other table is unchanged by construction.
- `Rounding` models `Math.round` over exact rationals.
- `Strings` and `Seqs` are the text and list helpers the modules share (`includes`, `startsWith`, `split(sep)[0]`, `toLowerCase` on the Latin, Greek and Cyrillic alphabets, `filter`, and a stable sort for the store's `.order()`).
- `Wrappers` holds `Option` and `Parse`.

Some inputs come from outside the code and are parameters of the model:

- the signed-in user;
- the store's answer to each insert: the new id, or an error;
- the AI gateway's and Wave's replies;
- `JSON.parse`;
- the clock.

## Model

| member | source | states |
|---|---|---|
| Rounding.RoundDiv | src/pages/CourseReader.tsx:111 | `Math.round(p / q)` is the integer r with 2qr ≤ 2p + q < 2qr + 2q: the nearest integer, with halves rounding up, also for negative values |
| Rounding.RoundDivUnique | src/pages/CourseReader.tsx:111 | those bounds determine the rounded value, so any r meeting them is `Math.round(p / q)` |
| Rounding.RoundDivBetween | src/pages/Dashboard.tsx:48 | if p / q lies in [lo, hi], so does its rounding |
| Rounding.PercentRange | src/pages/CourseReader.tsx:111 | a part between 0 and the whole gives a percentage in 0..100 |
| Rounding.PercentOfWhole | src/pages/CourseReader.tsx:111 | the whole gives exactly 100 |
| Rounding.PercentOfNothing | src/pages/CourseReader.tsx:111 | nothing gives exactly 0 |
| Rounding.PercentReachesFull | src/pages/CourseReader.tsx:127-130 | the percentage reaches 100 exactly when 200·part ≥ 199·whole, i.e. part/whole ≥ 0.995 |
| Rounding.PercentMonotone | src/pages/CourseReader.tsx:127 | a larger part never gives a smaller percentage |
| Strings.TextOr | src/pages/Admin.tsx:108-112 | `s || d` on text: the value when non-empty, otherwise the default |
| Strings.BeforeSpec | src/pages/Dashboard.tsx:91 | `split(sep)[0]` is a prefix of the text that contains no occurrence of the separator and is followed by the separator or the end of the text |
| Seqs.SortBySorted | src/pages/CourseReader.tsx:40 | `.order(column)` returns rows in ascending order of that column |
| Seqs.SortByPermutes | src/pages/CourseReader.tsx:40 | `.order(column)` returns each row as often as it is stored |
| Records.ActivatePlan | supabase/functions/wave-webhook/index.ts:40-46 | the profile update by `user_id` gives that user's row the plan and `plan_active`, keeps its name and changes no other row; for a user with no row it changes nothing |
| Records.ActivatePlanIdempotent | supabase/functions/wave-webhook/index.ts:40-46 | activating the same plan twice is activating it once |
| CourseReader.CorrectCount | src/pages/CourseReader.tsx:107-110 | the number of correct answers is at most the number of questions |
| CourseReader.AllCorrectIff | src/pages/CourseReader.tsx:107-110 | the count equals the number of questions iff every answer equals its question's `correct_answer` |
| CourseReader.NoneCorrectIff | src/pages/CourseReader.tsx:107-110 | the count is 0 iff no answer is correct; an unanswered question is not correct |
| CourseReader.CountCorrect | src/pages/CourseReader.tsx:107-110 | the `forEach` loop computes exactly `CorrectCount` |
| CourseReader.Grade | src/pages/CourseReader.tsx:107-112 | the score is the whole percentage nearest to correct/total with halves up, lies in 0..100, is 100 when all are correct and 0 when none are; the attempt passes iff the score reaches `passing_score`, where a null or zero threshold means 70 |
| CourseReader.PerfectScorePasses | src/pages/CourseReader.tsx:111-112 | a fully correct submission scores 100 and passes unless the configured threshold exceeds 100 |
| CourseReader.IndexOf | src/pages/CourseReader.tsx:126 | `findIndex` gives the first module with that id, or -1 when there is none |
| CourseReader.RecordPass | src/pages/CourseReader.tsx:126-132 | after a pass on module k of n, progress is the rounding of (k+1)/n as a percentage; the course is completed, with `completed_at` set to the time, exactly when that reaches 100, which is 200(k+1) ≥ 199n; the last module always gives 100; the enrollment date is kept |
| CourseReader.PassingEarlierModuleRegresses | src/pages/CourseReader.tsx:127-131 | progress is not monotonic: after finishing the course, passing an earlier module again writes a lower percentage and clears the completion |
| CourseReader.RegressionExample | src/pages/CourseReader.tsx:127-131 | in a two-module course, finishing and then passing module 1 again leaves 50% and not completed |
| CourseReader.UpdateEnrollment | src/pages/CourseReader.tsx:128-132 | the progress update on `(course_id, user_id)` changes exactly that enrollment when it exists, and nothing when it does not |
| CourseReader.HeaderProgress | src/pages/CourseReader.tsx:136-137 | the header bar lies in 0..100; it is 0 without modules or without a matching active module, and 100 on the last module |
| CourseReader.HeaderMatchesRecordedPass | src/pages/CourseReader.tsx:126-137 | the header shows exactly the progress a pass on the active module writes |
| CourseReader.SidebarDone | src/pages/CourseReader.tsx:204 | a module is marked done exactly when it comes before the active module's index; the marks are a prefix, the active module is never marked, and no module is marked when the active one is not found |
| CourseReader.QuizFor | src/pages/CourseReader.tsx:78 | `maybeSingle` gives a quiz exactly when one row of the module matches, that quiz belongs to the module, and none when the module has no quiz |
| CourseReader.QuizForUnique | src/pages/CourseReader.tsx:78 | a module with exactly one quiz row gets that quiz |
| CourseReader.QuizForAmbiguous | src/pages/CourseReader.tsx:78 | a module with two quiz rows gets no quiz, as `maybeSingle` fails on them |
| CourseReader.QuestionsOf | src/pages/CourseReader.tsx:81 | the quiz's questions are the rows of that quiz, each as often as it is stored, in ascending `sort_order` |
| CourseReader.Reader.constructor | src/pages/CourseReader.tsx:38-54 | the page loads the course's modules in `sort_order` and makes the first one active, with an empty quiz state |
| CourseReader.Reader.SelectModule | src/pages/CourseReader.tsx:92-100 | the chosen module becomes active; quiz, questions, answers, result, honour board and sidebar are cleared |
| CourseReader.Reader.LoadQuiz | src/pages/CourseReader.tsx:77-90 | a found quiz comes with its ordered questions and a fresh answer sheet; without one, quiz and questions are cleared and the rest is left as it was |
| CourseReader.Reader.ChooseAnswer | src/pages/CourseReader.tsx:363 | an option is recorded only while the quiz has no result |
| CourseReader.Reader.RetryQuiz | src/pages/CourseReader.tsx:431 | retrying clears the result and the answers |
| CourseReader.Reader.SubmitQuiz | src/pages/CourseReader.tsx:102-134 | without a quiz or a user nothing changes; otherwise one attempt with `Grade`'s score is appended and the result shown; on a pass the honour board opens and the enrollment gets `RecordPass` for the active module's index; a failure writes no progress |
| WaveCheckout.Screen | supabase/functions/wave-checkout/index.ts:13-55 | the request is admitted iff the key, the Authorization header, the resolved user, a readable body, a non-zero amount and a plan are all present; without a key the reply is the 200 demo answer, and only then; missing auth gives 401, an unreadable body 500 and a missing amount or plan 400 "Montant et plan requis" |
| WaveCheckout.NewPayment | supabase/functions/wave-checkout/index.ts:58-66 | the inserted row is the caller's pending "wave" payment of the posted amount and plan, with no transaction id or provider data |
| WaveCheckout.ErrorUrl | supabase/functions/wave-checkout/index.ts:88 | the caller's `error_url` is sent as given; without one, the sent URL ends with `/payment/error?payment_id=` and the payment id |
| WaveCheckout.SuccessUrl | supabase/functions/wave-checkout/index.ts:89 | the caller's `success_url` is sent as given; without one, the sent URL ends with `/payment/success?payment_id=` and the payment id |
| WaveCheckout.DerivedErrorUrl | supabase/functions/wave-checkout/index.ts:88 | a derived error URL keeps the success URL's text before its first "/payment" |
| WaveCheckout.DerivedSuccessUrl | supabase/functions/wave-checkout/index.ts:89 | a derived success URL keeps the error URL's text before its first "/payment" |
| WaveCheckout.NoUrlsGiven | supabase/functions/wave-checkout/index.ts:88-89 | with neither URL posted, both callbacks begin with the text "undefined" |
| WaveCheckout.SessionRequest | supabase/functions/wave-checkout/index.ts:85-91 | the provider is asked for the amount as decimal text in XOF, with the two callback URLs and the payment id as client reference |
| WaveCheckout.AfterProvider | supabase/functions/wave-checkout/index.ts:94-116 | a provider refusal marks the payment failed; an accepted session stores its JSON and its id (kept when absent); a thrown call leaves the row; payer, amount, plan and method never change |
| WaveCheckout.ReplyFor | supabase/functions/wave-checkout/index.ts:94-125 | the reply is 200 iff the provider accepted, and then carries the payment id, launch URL, status and session id; a refusal gives "Erreur Wave API" with the provider's text |
| WaveCheckout.CheckoutNeverCompletes | supabase/functions/wave-checkout/index.ts:65-116 | a checkout leaves its payment pending, or failed exactly when the provider refused; it never completes a payment |
| WaveCheckout.Checkout | supabase/functions/wave-checkout/index.ts:9-134 | a screened-out request or a rejected insert writes nothing and sends nothing; otherwise the new id maps to `AfterProvider` of the new row, the session request is sent and `ReplyFor` answers |
| WaveWebhook.Target | supabase/functions/wave-webhook/index.ts:22-27 | an event targets a payment iff it is `checkout.session.completed` and carries a non-empty `client_reference`, which is the payment id |
| WaveWebhook.Complete | supabase/functions/wave-webhook/index.ts:29-38 | the payment becomes completed with the session data and the session id (kept when absent); payer, plan, amount and method are unchanged |
| WaveWebhook.WebhookEffect | supabase/functions/wave-webhook/index.ts:22-50 | only the targeted payment and its payer's profile change; an untargeted event or an unknown payment changes nothing; no row is added or removed |
| WaveWebhook.HandleWebhook | supabase/functions/wave-webhook/index.ts:9-62 | an unreadable body is answered 500 with nothing written; every other delivery is answered 200 and applies `WebhookEffect` |
| PaymentSuccess.SuccessEffect | src/pages/PaymentSuccess.tsx:17-39 | only a pending payment with a signed-in user is written: it becomes completed with nothing else changed, and the signed-in user's profile gets the payment's plan; in every other case nothing changes |
| PaymentSuccess.ShownPlan | src/pages/PaymentSuccess.tsx:78 | the page names the payment's plan when the payment is found with a non-empty plan, and "Premium" otherwise; it is never empty |
| PaymentSuccess.SecondVisitIsNoOp | src/pages/PaymentSuccess.tsx:29 | visiting the page twice has the effect of visiting it once |
| PaymentSuccess.NoPromotion | src/pages/PaymentSuccess.tsx:29-37 | a failed or cancelled payment is never completed by this page |
| PaymentSuccess.Verify | src/pages/PaymentSuccess.tsx:16-41 | the effect on payments and profiles is `SuccessEffect` and the plan shown is `ShownPlan` |
| Reconciliation.WebhookIdempotent | supabase/functions/wave-webhook/index.ts:29-46 | delivering the same event twice leaves the ledger as delivering it once |
| Reconciliation.WebhookPromotes | supabase/functions/wave-webhook/index.ts:29-38 | the webhook completes a failed or cancelled payment, because it does not check the status |
| Reconciliation.RaceCommutesForPayer | src/pages/PaymentSuccess.tsx:29-37 | when nobody or the payer is signed in, the webhook-then-page and page-then-webhook orders give the same ledger |
| Reconciliation.RaceDependsOnOrder | src/pages/PaymentSuccess.tsx:31-36 | when another user is signed in, that user's plan is activated only if the page runs before the webhook (concrete ledger) |
| Reconciliation.CompletionAndEntitlementAreKept | supabase/functions/wave-webhook/index.ts:29-46 | neither the webhook nor the page takes a payment out of completed or deactivates a plan |
| PaymentPage.PlanFromQuery | src/pages/Payment.tsx:35 | the plan is the query parameter when non-empty, otherwise "decouverte" |
| PaymentPage.DetailsFor | src/pages/Payment.tsx:36 | a known plan gets its own details; an unknown one is priced as Découverte; every price is 2500, 5000 or 10000 |
| PaymentPage.Prices | src/pages/Payment.tsx:12-36 | Découverte costs 2500, Essentiel 5000 and Premium 10000 XOF; "avance" and a missing plan are priced as Découverte |
| PaymentPage.RequestBody | src/pages/Payment.tsx:59-66 | the page posts the plan's price, the plan, and the origin's `/payment/success` and `/payment/error` URLs |
| PaymentPage.PageRequestIsAdmitted | src/pages/Payment.tsx:59-66 | what the page posts always passes the checkout's body checks, and the provider gets the page's own callback URLs |
| PaymentPage.DemoPayment | src/pages/Payment.tsx:79-86 | the demo row is the user's completed "wave" payment of the plan's price, with a transaction id starting "DEMO_" |
| PaymentPage.UnknownPlanSentAsWritten | src/pages/Payment.tsx:79-86 | a plan outside the catalogue, such as "avance", is sent to the store as written while charged at Découverte's price |
| PaymentPage.DemoEffect | src/pages/Payment.tsx:77-92 | with a signed-in user, the demo adds the completed payment (when its insert succeeds) and activates the plan; without one it changes nothing |
| PaymentPage.Page.constructor | src/pages/Payment.tsx:35-38 | the page starts idle, not loading, for the plan its query names |
| PaymentPage.Page.HandleWavePayment | src/pages/Payment.tsx:50-122 | loading ends false and the status leaves Idle; without a session it fails and sends nothing; otherwise it posts `RequestBody`; the demo answer succeeds and applies `DemoEffect`; a launch URL leaves it processing; an error or a missing URL fails; only the demo writes the store |
| AiGateway.FirstIndexOf | supabase/functions/generate-blog/index.ts:84 | the first position of a character, or -1 when it does not occur |
| AiGateway.LastIndexOf | supabase/functions/generate-blog/index.ts:84 | the last position of a character, or -1 when it does not occur |
| AiGateway.ExtractJson | supabase/functions/generate-course/index.ts:143-144 | what is parsed is the whole text, or a span of it that starts with "{" and ends with "}" |
| AiGateway.ExtractBetween | supabase/functions/generate-blog/index.ts:84-85 | with "{" first at i and "}" last at j > i, exactly text[i..j] is parsed |
| AiGateway.ExtractNoPair | supabase/functions/generate-course/index.ts:61-62 | without a "{" followed by a "}", the text is parsed as it is |
| AiGateway.ExtractWholeObject | supabase/functions/generate-blog/index.ts:84-85 | text that is a single flat object is parsed unchanged |
| AiGateway.StatusFailure | supabase/functions/generate-course/index.ts:131-136 | a 429 answer gives 429 "Trop de requêtes…", a 402 gives 402 "Crédits IA épuisés.", and any other status is thrown with its number and answered 500 |
| AiGateway.StatusFailureKeepsOnlyRateAndCredit | supabase/functions/generate-blog/index.ts:63-76 | the reply keeps the gateway's status iff that status is 429, 402 or 500 |
| GenerateCourse.SuggestOutcome | supabase/functions/generate-course/index.ts:24-67 | suggest mode returns the parsed idea sheet, a 500 with the parse error, or a 500 when the call threw; it never returns a course |
| GenerateCourse.SuggestIgnoresStatus | supabase/functions/generate-course/index.ts:59-62 | suggest mode answers a refused call exactly as an accepted call with the same body |
| GenerateCourse.GenerateOutcome | supabase/functions/generate-course/index.ts:116-147 | a refused call maps through `StatusFailure`, text that does not parse gives 500 "Impossible de parser la réponse IA", and parsed text gives the course tree |
| GenerateCourse.ImageResults | supabase/functions/generate-course/index.ts:150-192 | there is one image job for each of the first three modules at most, and job i belongs to module i |
| GenerateCourse.WithImagesUpTo | supabase/functions/generate-course/index.ts:193-197 | merging the first k jobs gives module i < k its URL when that URL is non-empty, and leaves every other module and field unchanged |
| GenerateCourse.ImagesOnFirstThree | supabase/functions/generate-course/index.ts:151-197 | the image merge changes only `image_url` of the first three modules, each only when its job produced a URL |
| GenerateCourse.MergeImages | supabase/functions/generate-course/index.ts:193-197 | the in-place loop over the job results leaves the array equal to `WithImages` of its old contents |
| GenerateCourse.HandleGenerateCourse | supabase/functions/generate-course/index.ts:9-210 | an unreadable body or a missing key gives 500; suggest mode gives `SuggestOutcome`; otherwise `GenerateOutcome`, with images merged into a generated course when they were asked for |
| GenerateBlog.TopicOf | supabase/functions/generate-blog/index.ts:58 | the article topic is the posted content when non-empty, otherwise "Intelligence Artificielle en Afrique" |
| GenerateBlog.FallbackArticle | supabase/functions/generate-blog/index.ts:86-94 | text that does not parse becomes the content of an article titled "ARTICLE GÉNÉRÉ", with an empty summary, no tags and a slug starting "article-genere-" |
| GenerateBlog.ArticleFrom | supabase/functions/generate-blog/index.ts:82-94 | the article is what the extracted JSON parses to, and the fallback article when it does not parse |
| GenerateBlog.ImageOf | supabase/functions/generate-blog/index.ts:97-125 | the image is a non-empty URL iff one was asked for and the image call was accepted; a failed image call never fails the request |
| GenerateBlog.HandleGenerateBlog | supabase/functions/generate-blog/index.ts:8-136 | an unreadable body or a missing key gives 500 and makes no call; otherwise the topic is `TopicOf`; a thrown call gives 500 with its message, a refused one `StatusFailure`, and an accepted one `ArticleFrom` of its text with `ImageOf` |
| CourseGenerator.NumberOr | src/components/admin/AdminCourseGenerator.tsx:106 | `n || d` on a number keeps a non-zero value, gives the default for a missing or zero one, and never yields 0 when the default is non-zero |
| CourseGenerator.CourseRowOf | src/components/admin/AdminCourseGenerator.tsx:101-112 | the course row copies the generated title, description, sector and level, with duration 120 by default, format "video", `sort_order` the clock and the chosen published flag |
| CourseGenerator.ModuleRowOf | src/components/admin/AdminCourseGenerator.tsx:116-124 | a module row belongs to the new course, with duration 20 and `sort_order` 1 by default and no video or PDF |
| CourseGenerator.QuizRowOf | src/components/admin/AdminCourseGenerator.tsx:129-136 | a quiz row belongs to its module, with passing score 70 by default |
| CourseGenerator.QuestionRowOf | src/components/admin/AdminCourseGenerator.tsx:138-145 | a question row belongs to its quiz and keeps its options and answer, with type "qcm" and `sort_order` 1 by default |
| CourseGenerator.QuestionRows | src/components/admin/AdminCourseGenerator.tsx:137-146 | a quiz's questions give at most one row each |
| CourseGenerator.QuestionRowsFromAccepted | src/components/admin/AdminCourseGenerator.tsx:137-146 | every stored question row is the row of a question whose insert was accepted, with the id the store gave; a rejected insert contributes none |
| CourseGenerator.QuestionRowsAllAccepted | src/components/admin/AdminCourseGenerator.tsx:137-146 | when every question insert is accepted, each question gets its row, in order |
| CourseGenerator.QuestionRowsAllRejected | src/components/admin/AdminCourseGenerator.tsx:137-146 | when every question insert is rejected, no question row is stored |
| CourseGenerator.ModuleBatch | src/components/admin/AdminCourseGenerator.tsx:116-146 | a rejected module insert adds no row of any kind (`continue`); an accepted one adds exactly its module row; without questions no quiz or question row is added |
| CourseGenerator.ModuleBatchQuiz | src/components/admin/AdminCourseGenerator.tsx:129-146 | after an accepted module insert: without questions one insert is sent; a rejected quiz insert adds no quiz and no question rows, after two inserts; an accepted one adds its `QuizRowOf` row and the `QuestionRows` of its questions, after two plus one per question |
| CourseGenerator.Publication | src/components/admin/AdminCourseGenerator.tsx:115-146 | the module loop adds at most one module row per generated module and sends at least one insert for each |
| CourseGenerator.PublicationAllAccepted | src/components/admin/AdminCourseGenerator.tsx:115-126 | when every insert sent is accepted, there is one module row per generated module, in order, each built from its module |
| CourseGenerator.QuestionRowsWellFormed | src/components/admin/AdminCourseGenerator.tsx:138-145 | every question row belongs to the quiz it was inserted for and has a type and a non-zero `sort_order` |
| CourseGenerator.ModuleBatchDefaulted | src/components/admin/AdminCourseGenerator.tsx:116-145 | one module's rows belong to the course and carry the defaults |
| CourseGenerator.ModuleBatchLinked | src/components/admin/AdminCourseGenerator.tsx:116-145 | one module's quiz points at its module row and its questions at its quiz row |
| CourseGenerator.PublicationDefaulted | src/components/admin/AdminCourseGenerator.tsx:115-146 | whatever the store answers, every published row belongs to the course and carries its defaults |
| CourseGenerator.PublicationLinked | src/components/admin/AdminCourseGenerator.tsx:115-146 | whatever the store answers, every quiz row points at a module row and every question row at a quiz row of the same publication |
| CourseGenerator.PublicationStep | src/components/admin/AdminCourseGenerator.tsx:115-126 | an accepted module insert appends that module's row after the earlier ones; a rejected one adds nothing, and the loop continues with the next module |
| CourseGenerator.Generator.constructor | src/components/admin/AdminCourseGenerator.tsx:43-55 | the panel starts with an empty prompt, sector "education", level "debutant", images on, nothing generated, target plan "decouverte" and publication on |
| CourseGenerator.Generator.GetSuggestions | src/components/admin/AdminCourseGenerator.tsx:57-73 | the panel asks for ideas in its sector in suggest mode; a reply with an idea list shows it, and anything else leaves the list |
| CourseGenerator.Generator.PickSuggestion | src/components/admin/AdminCourseGenerator.tsx:215-219 | picking an idea fills prompt, sector and level from it and hides the list |
| CourseGenerator.Generator.Generate | src/components/admin/AdminCourseGenerator.tsx:75-94 | a blank prompt does nothing; otherwise the form is sent and the previous course is replaced by the generated one, or dropped when none came back |
| CourseGenerator.Generator.PublishCourse | src/components/admin/AdminCourseGenerator.tsx:96-161 | without a course nothing happens; a rejected course insert writes nothing else; otherwise the course row and `Publication`'s rows are appended, the form is reset and the parent notified once; publishing ends false |
| CourseGenerator.PublishModules | src/components/admin/AdminCourseGenerator.tsx:115-146 | the loop appends exactly the rows of `Publication` for all modules |
| CourseGenerator.PublishModule | src/components/admin/AdminCourseGenerator.tsx:116-146 | one pass appends exactly the rows of `ModuleBatch` |
| Admin.GateOf | src/pages/Admin.tsx:41-44 | no user goes to /auth; the console opens iff the user's roles include "admin"; otherwise, also when the role query fails, /dashboard |
| Admin.Recent | src/pages/Admin.tsx:48 | `.limit(50)` keeps the first 50 payments of the newest-first list, or all when there are fewer |
| Admin.CompletedPayments | src/pages/Admin.tsx:60 | the payments counted are exactly the completed ones |
| Admin.StatsOf | src/pages/Admin.tsx:60-66 | the cards show the number of users and courses, the number of completed payments, and as revenue the total of their amounts |
| Admin.TotalAppend | src/pages/Admin.tsx:65 | the total of two lists of payments is the sum of their totals |
| Admin.RevenueSplits | src/pages/Admin.tsx:60-65 | revenue and payment count of two batches add up; a payment that is not completed contributes nothing |
| Admin.TotalBetween | src/pages/Admin.tsx:65 | amounts within [lo, hi] give a total within [lo·n, hi·n] |
| Admin.RevenueBetween | src/pages/Admin.tsx:65 | completed amounts within [lo, hi] give a revenue between lo and hi times the completed count |
| Admin.RevenueNonNegative | src/pages/Admin.tsx:65 | non-negative amounts give a non-negative revenue |
| Admin.WithoutCourse | src/pages/Admin.tsx:83 | the list keeps exactly the courses with another id, in their order |
| Admin.WithoutCourseIdempotent | src/pages/Admin.tsx:81-83 | deleting twice is deleting once, and deleting an id that is not listed changes nothing |
| Admin.CourseRowFrom | src/pages/Admin.tsx:73 | the form becomes a published course row with the form's fields |
| Admin.DraftFrom | src/pages/Admin.tsx:107-113 | a non-empty title, slug, content or summary is kept; a missing or empty one becomes "ARTICLE GÉNÉRÉ", "article-" with the clock, "" and ""; the thumbnail is the image when one came back and absent otherwise |
| Admin.FallbackDraft | src/pages/Admin.tsx:107-113 | the edge function's fallback article becomes a draft titled "ARTICLE GÉNÉRÉ" with the raw reply as content, an empty summary and the function's own slug |
| Admin.StoredThumbnail | src/pages/Admin.tsx:127-142 | a `data:` thumbnail is replaced by its public URL after an upload, kept when the upload reports an error and dropped when it throws; any other thumbnail is stored as it is |
| Admin.Console.constructor | src/pages/Admin.tsx:20-37 | the console starts loading, with zero cards, empty lists and the default new-course form |
| Admin.Console.Init | src/pages/Admin.tsx:39-70 | the gate's redirect comes first and nothing is loaded past it; an open console loads the lists (null as empty), the 50 newest payments and `StatsOf` of them |
| Admin.Console.AddCourse | src/pages/Admin.tsx:72-79 | a rejected insert changes nothing; an accepted one appends the published row, reloads the list and resets the form |
| Admin.Console.DeleteCourse | src/pages/Admin.tsx:81-85 | the store drops the course when it accepts the delete; the list drops it whatever the store answered |
| Admin.Console.GenerateBlog | src/pages/Admin.tsx:97-120 | the editor's text and image choice are sent; a delivered article becomes the draft `DraftFrom`; an error keeps the previous draft; the dialog and the spinner end closed |
| Admin.Console.PublishPost | src/pages/Admin.tsx:122-159 | without a draft nothing happens; otherwise the row is stored published, by the signed-in user, with `StoredThumbnail` and without the summary; a rejected insert keeps the draft, and an accepted one reloads the list and resets the editor |
| Dashboard.AvgProgress | src/pages/Dashboard.tsx:47-49 | the average progress is 0 without enrollments, otherwise the mean of the progress values, with null counted as 0, rounded half up |
| Dashboard.ProgressSumBetween | src/pages/Dashboard.tsx:48 | progress values within [lo, hi] give a total within [n·lo, n·hi] |
| Dashboard.AvgProgressBetween | src/pages/Dashboard.tsx:47-49 | the average lies inside any range around 0 that holds every progress value |
| Dashboard.AvgProgressPercent | src/pages/Dashboard.tsx:47-49 | progress values in 0..100 give an average in 0..100 |
| Dashboard.AvgProgressUniform | src/pages/Dashboard.tsx:47-49 | when every enrollment shows the same progress, that is the average |
| Dashboard.CompletedCount | src/pages/Dashboard.tsx:114 | the completed figure is at most the enrolled figure |
| Dashboard.AllCompleted | src/pages/Dashboard.tsx:112-114 | the completed figure equals the enrolled figure iff every enrollment is completed |
| Dashboard.CompletedCountAppend | src/pages/Dashboard.tsx:114 | the completed figure of two lists together is the sum of theirs |
| Dashboard.PlanLabel | src/pages/Dashboard.tsx:11-16 | exactly the four plan keys have badge labels: Découverte, Essentiel, Avancé and Premium ⭐ |
| Dashboard.PlanKey | src/pages/Dashboard.tsx:46 | the plan looked up is the profile's plan when non-empty, otherwise "decouverte" |
| Dashboard.Badge | src/pages/Dashboard.tsx:46 | without a profile or plan the badge reads "Découverte"; otherwise it is the stored plan's own label, and every value of the `plan_type` enum has one |
| Dashboard.ShowUpsell | src/pages/Dashboard.tsx:96 | the upgrade banner shows iff there is no profile or its plan is not active |
| Dashboard.Greeting | src/pages/Dashboard.tsx:91 | the greeting is never empty; without a name, or with a name that starts with a space, it is "Apprenant"; otherwise it is the name's text before the first space |
| Dashboard.GreetsFirstName | src/pages/Dashboard.tsx:91 | a full name "First Rest" greets the learner as "First" |
| Dashboard.FiguresOf | src/pages/Dashboard.tsx:112-115 | enrolled is the number of enrollments (null as none), the average and completed figures are `AvgProgress` and `CompletedCount` of them (so completed is at most enrolled and both are 0 without enrollments), and the sessions figure is the scheduled count capped at 5 by the query's limit |
| Catalogue.LabelOr | src/pages/Catalogue.tsx:141 | `table[key] || key` gives the mapped label when it is non-empty, and the raw key when there is none |
| Catalogue.LevelLabel | src/pages/Catalogue.tsx:141 | a known level shows its label and any other its raw value; a non-empty level never shows empty |
| Catalogue.SectorLabel | src/pages/Catalogue.tsx:143-144 | a sector line shows iff the sector is non-empty, with the sector's label or the raw sector |
| Catalogue.Query | src/pages/Catalogue.tsx:56-58 | the query returns no more rows than the table holds |
| Catalogue.QueryMembers | src/pages/Catalogue.tsx:56-58 | the query returns exactly the published courses of the chosen sector, or of every sector when none is chosen |
| Catalogue.QueryPermutes | src/pages/Catalogue.tsx:56-58 | each listed row is returned as often as it is stored |
| Catalogue.QueryOrdered | src/pages/Catalogue.tsx:56 | rows come in ascending `sort_order`, and rows without one come after all the others |
| Catalogue.Filtered | src/pages/Catalogue.tsx:65-68 | the search shows no more courses than were fetched |
| Catalogue.FilteredMembers | src/pages/Catalogue.tsx:65-68 | a course is shown iff it was fetched and its lower-cased title or description includes the lower-cased search |
| Catalogue.FilteredKeepsOrder | src/pages/Catalogue.tsx:65-68 | the shown courses keep the fetched order |
| Catalogue.EmptySearchShowsAll | src/pages/Catalogue.tsx:65-68 | an empty search shows every fetched course |
| Catalogue.NoDescriptionSearchesTitle | src/pages/Catalogue.tsx:67 | without a description only the title is searched |
| Catalogue.SearchIgnoresCase | src/pages/Catalogue.tsx:66-67 | searching the lower-cased text shows the same courses as the text itself |
| Catalogue.TitleFindsCourse | src/pages/Catalogue.tsx:66 | searching for a course's own title finds it |
| Catalogue.LongerSearchNarrows | src/pages/Catalogue.tsx:65-68 | typing more characters never brings back a course the shorter search hid |
| Catalogue.Shown | src/pages/Catalogue.tsx:59-68 | the cards are the fetched rows (null as none), narrowed by the search, and all of them for an empty search |
| ServiceWorker.StaleCaches | public/sw.js:17-28 | activation deletes no more caches than are listed |
| ServiceWorker.StaleCachesMembers | public/sw.js:21-23 | a listed cache is deleted iff it is neither `iapourtous-course-v1` nor `iapourtous-static-v1` |
| ServiceWorker.ActivateKeepsCurrent | public/sw.js:17-28 | after activation exactly the two current caches among those listed remain; deleted and kept caches together are the listed ones |
| ServiceWorker.Route | public/sw.js:30-85 | the rules apply in order: `/offline/course/` paths are cache-first; supabase hosts are network-first, storing only GET answers under `/rest/`; navigations are network-first; static-asset suffixes are cache-first; everything else is network-first |
| ServiceWorker.CourseContentFirst | public/sw.js:34-39 | course-content paths are cache-first whatever the host, method and mode |
| ServiceWorker.Serve | public/sw.js:34-84 | a cache-first hit is served and nothing is stored; otherwise a network answer is served; offline, a navigation gets the cached `/index.html` and the rest gets the cached request; only a fetched static asset is stored in the static cache and only a stored API answer in the course cache |
| ServiceWorker.CourseCacheWrites | public/sw.js:42-56 | only GET requests to supabase under `/rest/` are written to the course cache |
| ServiceWorker.Blocked | public/sw.js:88-101 | a document request for a `.pdf` or `.docx` path under `/courses/` is classified as blocked, and no other request is; the listener's reply to it is a plain-text 403 with the refusal message |
| ServiceWorker.BlockedIsNotStatic | public/sw.js:67-92 | a blocked download path is never one the first listener treats as a static asset |
| ServiceWorker.FirstReply | public/sw.js:30-101 | the reply that stands is one of the listeners' replies, and it is the first listener's when that one responds |
| ServiceWorker.FirstReplyIsFirst | public/sw.js:30-101 | with listeners run in registration order, the first one that responds decides the reply |
| ServiceWorker.FirstListener | public/sw.js:30-85 | the caching listener responds to every request, with the outcome of `Serve` |
| ServiceWorker.GuardListener | public/sw.js:88-101 | the guard listener responds exactly to blocked requests, with the 403 and no cache write |
| ServiceWorker.Dispatch | public/sw.js:30-101 | with the caching listener registered first, the page always gets its reply; a blocked document not in the cache is delivered from the network |
| ServiceWorker.BlockedPdfDelivered | public/sw.js:88-101 | a course PDF opened as a page is classified as blocked and still delivered |
| ServiceWorker.GuardedDispatch | public/sw.js:88-101 | with the guard registered first, every request gets a reply: a blocked one the 403 with no cache write, any other the caching listener's outcome |
| ServiceWorker.GuardedBlocksDownloads | public/sw.js:88-101 | under the guarded dispatch a blocked request is answered 403 and never gets a network document of another status |

## Left out

- Networking, authentication, toasts, navigation, dialogs, colours and all rendering are left out. The signed-in user, the store's answers, the AI gateway's and Wave's replies, `JSON.parse` and the clock are parameters.
- Store writes whose errors the source ignores are modelled as taking effect, except where the source reads the error. The source reads insert errors in the checkout, the admin forms and the course publisher, so those are modelled as `InsertReply` answers.
- The database's enum constraints are not modelled. The `plan_type` enum (`src/integrations/supabase/types.ts:556`, used by the columns at lines 332 and 373) holds only decouverte, essentiel and premium, so the store would refuse any other plan. The writers cast the plan with `as any`, and the demo branch ignores both write errors (`src/pages/Payment.tsx:79-91`). The model treats such writes as accepted: plan columns are text, the profile update always takes effect, and the payment insert's answer is a parameter. A payment's status is never null.
- PaymentPage.DetailsFor: a `plan` parameter naming a key that `planDetails` inherits from `Object.prototype` ("constructor", "toString", "valueOf", "hasOwnProperty", "__proto__" and the like) is not modelled. In the source such a key finds a truthy value, skips the `||` fallback at `src/pages/Payment.tsx:36`, and the render then throws at line 169 (`details.price.toLocaleString()`). The model prices every key outside the table as Découverte.
- Dashboard.Badge: a stored plan outside the label table yields None, for which the page has no badge. In the source `planInfo` is then undefined and the render throws at `src/pages/Dashboard.tsx:71` (`planInfo.color`); the model does not represent that crash.
- `src/integrations/supabase/types.ts`: only the `plan_type` enum (lines 554-556) and the nullability of the columns named here are used.
- The webhook completes the payment it names whatever that payment's status, so a failed or cancelled payment is promoted too. Only the success page checks for a pending status first. The model follows the code (`Reconciliation.WebhookPromotes`).
- The success page activates the plan of the signed-in user, not of the payer. The model follows the code.
- A webhook event whose `data.id` is JSON null is not distinguished from a missing one: both keep the transaction id.
- The amount in the checkout function is a JSON number. Fractional amounts and their decimal text are not modelled, and neither is `parseInt` of text.
- Floating-point artefacts of `Math.round(x / y * 100)` are not modelled; the rounding is exact.
- CourseReader.Reader.SubmitQuiz: requires a non-empty question list when a quiz is loaded. The page shows the submit button only then (`src/pages/CourseReader.tsx:335`), and an empty list would give a NaN score.
- CourseReader.Reader.SubmitQuiz: the button's disabling until every question is answered (line 444) is not modelled; any answer sheet is scored.
- CourseReader.Reader.SubmitQuiz: does not model a null active module. It writes no progress then, where the source would throw.
- The reader's enrollment insert on first visit (`src/pages/CourseReader.tsx:50-52`), its offline saving and the honour board's contents are not modelled.
- `Admin.tsx`'s live-session form (`addSession`, lines 87-94) and the session list are not modelled. Neither is the storage upload itself: only its three outcomes are.
- Admin.Console.DeleteCourse: the store's cascade to modules, quizzes and enrollments is not modelled; only the course rows are.
- The course generator's target plan is kept in the panel's state but, as in the source, never written to any row.
- CourseGenerator.Publication: the store's answers to one publication are a list, indexed by the position of each insert, and past its end every insert is rejected. For a publication in which every insert succeeds, the model proves the module rows (`CourseGenerator.PublicationAllAccepted`) but not the count of quiz and question rows across modules; those are stated per module (`CourseGenerator.ModuleBatch`).
- A generated course tree without a `course` object, which makes the source throw, is not modelled: the parsed tree always has one.
- The dashboard's live-session rows, its course cards and logout are not modelled; only the sessions count is.
- ServiceWorker.Serve: Cache Storage is modelled as what `caches.match` finds. The asynchrony, install's `addAll` and the cached `Response` clones are not modelled. The two `fetch` listeners on one request are modelled by registration order only (`ServiceWorker.FirstReply`); the exception the second `respondWith` raises is not.
- URL parsing is not modelled: requests arrive split into host and path.
- Nullable columns: a module's and a question's `sort_order` and a profile's `plan_active` are nullable (`src/integrations/supabase/types.ts:288`, `:453`, `:374`). The model gives rows an integer `sort_order`, so how `.order()` places null keys is not modelled; the course publisher always writes one. A null `plan_active` is modelled as false, which is how `!profile?.plan_active` reads it.
- Strings.Lower: lower-cases the capitals of Basic Latin, Latin-1, Latin Extended-A and the basic Greek and Cyrillic alphabets, one character at a time. JavaScript's `toLowerCase` also covers the other scripts, turns U+0130 (İ) into two characters and writes a word-final Σ as ς; those are not modelled, so `Catalogue.Filtered` can differ from the page for titles using them.
- Ties in `.order()` keep the listed order. PostgreSQL does not guarantee any order among equal keys.

## Findings

| source | as written | input that shows it | evidently intended | confidence | as-written member | corrected member |
|---|---|---|---|---|---|---|
| public/sw.js:88-101 | the download guard is a second `fetch` listener, registered after one that calls `respondWith` on every path, so its own `respondWith` throws and the 403 never reaches the page | a navigation to `/courses/guide.pdf` with destination `document`, not cached, online: the network's PDF is served | course `.pdf`/`.docx` documents under `/courses/` are refused with the 403 | high, by reading the listener order; not executed | ServiceWorker.Dispatch, ServiceWorker.BlockedPdfDelivered | ServiceWorker.GuardedDispatch, ServiceWorker.GuardedBlocksDownloads |
