# The broker's config store and catalog, in Dafny

A model of the Open Service Broker for Istio: the config store it keeps as Kubernetes custom
resources, and the service catalog it derives from that store.

- `Text`, `Names`, `Labels`: the string functions. Kebab case, camel case, dash removal, DNS
  labels as a regular expression with its language, the names of custom resource definitions.
- `Codec`, `Config`, `Documents`, `Conversion`: protobuf messages and JSON as trees, described by
  the fields of a message type; entries, schemas, validation; the YAML document and the
  Kubernetes object made from an entry, and back.
- `Server`: the API server as an explicit state, a map from (resource, namespace, name) to objects
  and a count of issued revisions. A revision is the decimal text of that count. Each request is
  one atomic step. Creation fails on an existing key, an update needs the stored revision, a
  listing returns every object in scope once, in any order.
- `Templates`, `Client`: the generated wrapper objects on the heap, whose specs are shared by
  copies, and the REST client as a class that copies a template, makes at most one request and
  converts the answer. `Operations` gives the same operations as functions on server states; the
  methods are proved equal to them.
- `Admission`: what each operation answers and does, case by case, in every state of the server.
- `Runs`, `Concurrency`: interleavings of any number of clients; optimistic concurrency.
- `StoreContract`, `Refinement`, `ConfigStore`: the store as its interface describes it, with no
  server behind it; every run of clients is a run of that store.
- `Invariants`, `Isolation`: what holds of everything stored; when types disturb each other.
- `Mock`, `MapInvariant`, `Shipped`: the operational contract of the repository's own tests as a
  script, proved from the store contract and the fact that the client's revisions are decimal, and
  then for a client of the shipped types.
- `BrokerStore`, `Osb`, `Controller`, `CatalogLaws`, `Counting`: the typed view of the store, the
  catalog loop with other clients writing between its requests, and what the catalog contains.

A parameter `reg` is the registry of linked message types. A Go string is a string with one char
per byte. Iteration over a Go map picks any remaining key. A Go `error` is nil exactly when the
sequence of errors is empty. `Panicked` is the outcome of a failed type assertion in a type's own
validation. `WellTyped` is what Go's typing gives: a message is a value of a linked message type.

Where the code and its comments part, the model follows the code:

- `Schema.Validate` does not compare a message's type with the schema's, so an entry can be stored
  that cannot be read back: `OneCreationHidesAllPlans` gives one, which also hides every other
  plan. `WrittenIsReadable`, `ConversionRoundTrip` and `YamlRoundTrip` say exactly when it can.
- `resourceName` maps different plurals to one path. The store comment promises unique keys by
  type, name and namespace; `RefinementIsSeparation` says exactly when clients keep the contract,
  and `NonInterferenceIsNonAliasing` when types stay apart in every state.
- `IstioNamespace` is dropped when an entry is stored (`Stored`, `Kept`), but kept in YAML.
- `camelCaseToKabobCase` and `kabobCaseToCamelCase` are inverses only on the strings
  `KabobRoundTrip` and `CamelRoundTrip` give.

## Model

| member | source | states |
|---|---|---|
| Names.KabobCaseToCamelCase | pkg/platform/kube/crd/conversion.go:71-78 | the accumulating loop over the dash-separated words yields the camel-case name the laws below are about |
| Names.CamelCaseToKabobCase | pkg/platform/kube/crd/conversion_test.go:31-44 | the byte loop into a buffer yields the kebab-case name the laws below are about |
| Names.KindMatchesResource | pkg/platform/kube/crd/conversion.go:66-78 | for every string over the listed characters a-z, 0-9 and dash, the kind and the resource name of a type differ only in case, with any runs of dashes and words that start with a digit |
| Names.KabobToCamelScans | pkg/platform/kube/crd/conversion.go:71-78 | over the same characters, camel case is one pass in which a dash disappears and raises the character after it |
| Names.ResourceNameJoins | pkg/platform/kube/crd/conversion.go:64-68 | a resource name is the pieces between the dashes, joined, for every string |
| Names.KabobRoundTrip | pkg/platform/kube/crd/conversion_test.go:46-57 | over the listed label characters, kebab, camel, kebab gives a string back if and only if no dash comes first and one of a-z follows every dash |
| Names.CamelRoundTrip | pkg/platform/kube/crd/conversion_test.go:46-57 | over the listed letters and digits, camel, kebab, camel gives a string back if and only if it does not start with one of a-z |
| Names.KindsDistinct | pkg/platform/kube/crd/client.go:62-66 | different kebab-case types get different kinds |
| Names.ResourceNamesCollide | pkg/platform/kube/crd/conversion.go:66-68 | every name with a dash shares its resource name with a different name, the one without dashes |
| Labels.PatternIsLabel | pkg/model/config/schema.go:30-37 | the language of the anchored regular expression with its 63-octet bound (section 2.1 of RFC 1123, section 2.3.4 of RFC 1035) is the set of bounded strings over the label alphabet with an alphanumeric at both ends |
| Labels.LabelTestListed | pkg/model/config/schema.go:30-37 | the label test passes if and only if there are 1 to 63 characters, each one of abcdefghijklmnopqrstuvwxyz0123456789-, and neither end is a dash |
| Labels.ScanLabel | pkg/model/config/schema.go:157-161 | one pass over the string that stops at the first wrong character decides the label test, as spelt out over the listed characters |
| Labels.ResourceNameIsLabel | pkg/platform/kube/crd/conversion.go:66-68 | taking the dashes out of a label leaves a label |
| Labels.CrdNameIsDotted | pkg/platform/kube/crd/client.go:62-66 | for a plural that is a label the CRD name splits at its dots into exactly four labels, the resource path and the three of the API group |
| Text.DecimalInjective | pkg/testing/mock/config.go:48-69 | numbered elements get different names |
| Codec.DecodeEncode | pkg/model/config/schema.go:87-101 | decoding the encoding of any message gives it back, through nested and repeated messages, with absent and empty submessages kept apart and defaults left out |
| Codec.EncodeDecode | pkg/model/config/schema.go:144-155 | a JSON object that decodes is written back unchanged if and only if it writes no default out at any depth |
| Codec.DecodesIffFits | pkg/model/config/schema.go:117-119 | an object decodes if and only if every member names a field and is null or has the field's shape, at every depth; texts and lists may be empty |
| Codec.ReencodesCanonically | pkg/model/config/schema.go:144-155 | null and default members make no difference: every object that fits is read as its canonical form is, and written back as that form |
| Config.KeyParses | pkg/model/config/store.go:82-84 | a key is read back by cutting at its first two slashes if and only if neither type nor namespace holds one |
| Config.KeyUnique | pkg/model/config/store.go:82-89 | a key belongs to no other object if and only if type, namespace and name hold no slash |
| Config.KeyUniqueInType | pkg/model/config/store.go:82-89 | a key belongs to no other object of the same type if and only if namespace and name hold no slash |
| Config.SchemaOf | pkg/model/config/schema.go:210-218 | a schema found has the type asked for and no earlier one does; none is found only if no schema has the type |
| Config.GetByType | pkg/model/config/schema.go:210-218 | the search loop stops at exactly that schema |
| Config.ValidateOutcome | pkg/model/config/schema.go:164-178 | validation passes, refuses or panics exactly as two label tests, the linked message type and the type's own check say |
| Config.SpecRoundTrip | pkg/model/config/schema.go:142-155 | a spec comes back from its JSON map if and only if it has the schema's message type |
| Documents.UnmarshalMarshal | pkg/model/config/schema.go:180-186 | a document with its empty metadata left out reads back as the same document |
| Documents.MarshalOutcome | pkg/model/config/schema.go:180-186 | what is written has the eight known members only, none of them empty, and nothing of the document is lost |
| Documents.YamlRoundTrip | pkg/model/config/schema.go:220-274 | FromYAML after ToYAML returns the entry with all its metadata if and only if its type is known, its spec has the schema's message type and it validates |
| Documents.FromYAMLOutcome | pkg/model/config/schema.go:220-249 | any document is read if and only if its metadata members are missing, null or of their shapes, its type is known, its spec fits the message type, and schema and message pass validation; the entry then has the document's metadata and the message of its spec |
| Documents.FromJSONOutcome | pkg/model/config/schema.go:220-239 | the same for the parts of a document, with a refusal by validation told from a panic in it |
| Documents.OtherMembersIgnored | pkg/model/config/schema.go:241-249 | members of a document other than the eight known ones make no difference |
| Documents.ToYAMLOutcome | pkg/model/config/schema.go:251-274 | every entry of a known type with a message is written, without validation, as its metadata and the JSON of its message |
| Conversion.ConvertObject | pkg/platform/kube/crd/conversion.go:26-43 | an entry read has its schema's type and a well-typed message, or the conversion fails |
| Conversion.ObjectReads | pkg/platform/kube/crd/conversion.go:26-43 | an object converts if and only if the message type is linked and its spec fits it; the entry has the object's metadata and the message of its spec |
| Conversion.ConversionRoundTrip | pkg/platform/kube/crd/conversion.go:25-62 | an entry converted to an object and back takes the schema's type, loses its IstioNamespace and nothing else, if and only if its spec has the schema's message type |
| Server.ApiServer.DoPost | pkg/model/config/store.go:65-68 | creating a key that exists fails and changes nothing; otherwise the object is stored with the next revision |
| Server.ApiServer.DoPut | pkg/model/config/store.go:70-75 | an update needs the object and its exact revision, and gives it a new one |
| Server.ApiServer.DoRemove | pkg/model/config/store.go:77-78 | a deletion removes exactly the object at the path and fails without effect when there is none |
| Server.ApiServer.DoList | pkg/model/config/store.go:61-63 | a listing holds every object of the resource and namespace exactly once |
| Templates.IstioKind.DeepCopyInto | pkg/platform/kube/crd/template.go:67-73 | a copy has the metadata and the very spec map of the original |
| Templates.IstioKind.DeepCopyObject | pkg/platform/kube/crd/template.go:75-92 | the copy is a new object that shares the spec |
| Templates.IstioKind.Receive | pkg/platform/kube/crd/client.go:270-275 | copying a template and decoding into the copy leaves a template without a spec untouched, and writes the response into one that has a spec |
| Templates.IstioKindList.GetItems | pkg/platform/kube/crd/template.go:58-65 | the filled slice is the items in order |
| Templates.IstioKindList.DeepCopyObject | pkg/platform/kube/crd/template.go:94-125 | an empty list template is copied to a new empty list |
| Templates.MakeKnownTypes | pkg/platform/kube/crd/generate.sh:54-87 | the generated table has the three types, each with templates of its own without spec or items |
| Client.Client.NewClient | pkg/platform/kube/crd/client.go:140-169 | a client is made if and only if every type of the descriptor is known, and then every later lookup is defined |
| Client.Client.ConvertObject | pkg/platform/kube/crd/conversion.go:26-43 | on a wrapper, agrees with the conversion the round trips are about |
| Client.Client.ConvertConfig | pkg/platform/kube/crd/conversion.go:46-62 | yields a new wrapper, sharing nothing with the template, that stands for the converted entry |
| Client.Client.Get | pkg/platform/kube/crd/client.go:263-288 | the answer is the one the refinement is about; server and templates are not written |
| Client.Client.Admit | pkg/platform/kube/crd/client.go:321-338 | lookup, validation, the revision check and conversion happen in this order before any request |
| Client.Client.Create | pkg/platform/kube/crd/client.go:291-318 | new server state and answer are those the refinement is about; the templates stay as they were |
| Client.Client.Update | pkg/platform/kube/crd/client.go:321-353 | new server state and answer are those the refinement is about; the templates stay as they were |
| Client.Client.Delete | pkg/platform/kube/crd/client.go:356-368 | new server state and answer are those the refinement is about |
| Client.Client.ConvertItems | pkg/platform/kube/crd/client.go:383-392 | the loop keeps the entries of the items that convert, in order, and the errors of the rest after that of the fetch |
| Client.Client.List | pkg/platform/kube/crd/client.go:371-393 | the answer converts every object in scope once, in some order |
| Operations.ConvertedOrReported | pkg/platform/kube/crd/client.go:383-392 | every listed item is either returned or reported, and there is no error if and only if all convert |
| Operations.ConvertedMembers | pkg/platform/kube/crd/client.go:383-392 | the entries returned are exactly what the items convert to |
| Operations.ConvertedInOrder | pkg/platform/kube/crd/client.go:383-392 | entries come in the order of their items |
| Operations.FailuresInOrder | pkg/platform/kube/crd/client.go:383-392 | errors come in the order of their items |
| Admission.CreateOutcome | pkg/platform/kube/crd/client.go:291-318 | in every state: exactly when Create answers unknown type, invalid, panic, nil message, already exists or a new revision; a success stores the entry as it is under that revision and changes nothing else, a failure changes nothing |
| Admission.UpdateOutcome | pkg/platform/kube/crd/client.go:321-353 | in every state: exactly when Update answers each refusal of the client, not found, conflict or a new revision, and what it does then |
| Admission.UnrevisedUpdateRefused | pkg/platform/kube/crd/client.go:331-333 | an update without a revision is refused by the client itself and changes nothing, even where the stored revision is empty |
| Admission.DeleteOutcome | pkg/platform/kube/crd/client.go:356-368 | in every state: what Delete answers and does |
| Admission.GetOutcome | pkg/platform/kube/crd/client.go:263-288 | in every state: Get finds an entry if and only if the object is there and its spec fits, and then shows all its metadata and its message |
| Admission.ListSucceedsIffAllFit | pkg/platform/kube/crd/client.go:371-393 | a listing reports no error if and only if the type is known and every spec it covers fits; for an unknown type it is empty with that one error |
| Admission.AlwaysLabelled | pkg/model/config/schema.go:168-170 | whatever any clients do from an empty server, every resource path in use is a DNS label |
| Concurrency.StepAtPath | pkg/model/config/store.go:44-48 | a successful write puts a revision never issued before, or nothing, under its path; anything else leaves the path alone |
| Concurrency.NeverOlderAgain | pkg/model/config/store.go:44-48 | over a whole run, a path that has lost its old revision never holds an old revision again |
| Concurrency.NoLostUpdate | pkg/model/config/store.go:70-75 | in every interleaving, an update that succeeds with a revision read earlier replaces exactly the object that was read: no write to the path took effect in between, not even deletion and recreation |
| Concurrency.UpdateSucceedsIffUntouched | pkg/platform/kube/crd/client.go:321-353 | an admitted update with a revision read earlier succeeds if and only if no write to its path took effect since |
| Concurrency.OneWinner | pkg/model/config/store.go:44-48 | of two updates carrying one revision to one path, the later fails once the earlier succeeded |
| StoreContract.NextCoherent | pkg/model/config/store.go:25-51 | every step the contract allows keeps each entry under its own key with a revision that was handed out |
| Refinement.LocatedInjective | pkg/platform/kube/crd/client.go:62-66 | no other key shares the path of a key whose type is alone on its resource |
| Refinement.CreateRefines | pkg/platform/kube/crd/client.go:291-318 | a creation succeeds exactly when the contract allows it, with a new revision, and then only its key changes |
| Refinement.UpdateRefines | pkg/platform/kube/crd/client.go:321-353 | an update succeeds exactly when the entry exists with the revision given, and then only its key changes |
| Refinement.DeleteRefines | pkg/platform/kube/crd/client.go:356-368 | a deletion succeeds exactly when the key exists, and removes only it |
| Refinement.GetRefines | pkg/platform/kube/crd/client.go:263-288 | Get finds exactly the store's entry |
| Refinement.ListRefines | pkg/platform/kube/crd/client.go:371-393 | List gives each entry of the type and namespace once, and an error only for an unknown type |
| Refinement.ClientRefinesStore | pkg/model/config/store.go:25-79 | every run of any number of clients over the server, with all its replies, is a run of the abstract store, when messages match their schemas and no type that can be written shares its resource |
| Refinement.RefinementIsSeparation | pkg/platform/kube/crd/client.go:62-66 | all runs from an empty server with matching messages are runs of the store if and only if no type that can be written shares its resource with another: otherwise a creation and a listing betray it |
| Refinement.SeparateIsNonAliasing | pkg/platform/kube/crd/conversion.go:64-68 | plurals distinct after dash removal suffice for that, and are needed where every type can be written |
| ConfigStore.ConfigStore.Create | pkg/model/config/store.go:65-68 | through the contract: no side effect on failure, one new entry on success |
| ConfigStore.ConfigStore.Update | pkg/model/config/store.go:70-75 | through the contract: blocked unless the revision is the stored one |
| ConfigStore.ConfigStore.Delete | pkg/model/config/store.go:77-78 | through the contract: removes the entry of the key or fails |
| ConfigStore.ConfigStore.Get | pkg/model/config/store.go:58-59 | through the contract: the entry of the key, if there is one |
| ConfigStore.ConfigStore.List | pkg/model/config/store.go:61-63 | through the contract: the entries of the type and namespace, each once |
| Invariants.AlwaysStoredOk | pkg/platform/kube/crd/client.go:291-353 | in every reachable state every stored object sits under its own name, decodes and passes its schema's validation, when clients write matching messages and their descriptors agree on the resources they share |
| Invariants.AlwaysNamed | pkg/platform/kube/crd/client.go:291-353 | whatever any clients do with any messages, every stored object carries the name and namespace of its path |
| Invariants.AgreesWithItself | pkg/platform/kube/crd/conversion.go:64-68 | the agreement the stored-state invariant asks of descriptors is, of one descriptor with itself, that its plurals stay distinct after dash removal |
| Invariants.ListSucceedsIffAllDecode | pkg/platform/kube/crd/client.go:371-393 | a listing reports no error if and only if the type is known and every object it covers decodes |
| Invariants.ListNeverFails | pkg/platform/kube/crd/client.go:371-393 | in a state of valid objects a listing of a known type reports no error |
| Invariants.GetFindsWhatListShows | pkg/platform/kube/crd/client.go:263-288 | Get finds an entry if and only if the listing shows it, even in a listing that reports errors |
| Invariants.WrittenIsReadable | pkg/model/config/schema.go:164-178 | an entry stored by a successful write reads back as written if and only if its message has the schema's type, which validation does not check |
| Isolation.TouchesOwnResource | pkg/platform/kube/crd/client.go:291-368 | an operation changes nothing outside the resource of its type |
| Isolation.AliasesInterfere | pkg/platform/kube/crd/conversion.go:64-68 | two types on one resource disturb each other, linked or not: a deletion through one changes the other's listing |
| Isolation.NonInterferenceIsNonAliasing | pkg/platform/kube/crd/client.go:62-66 | for every descriptor, operations on one type leave every other type's Get and List alone in all states if and only if plurals stay distinct after dash removal |
| Isolation.ListPartition | pkg/model/config/store.go:61-63 | the client's listing of a namespace is exactly its share of the client's listing across namespaces, whatever objects fail to decode |
| Isolation.ListUnion | pkg/model/config/store.go:61-63 | the client's listings of different namespaces are disjoint, and joined they are its listing across namespaces if and only if every entry listed there lives in one of them |
| Isolation.StoreListUnion | pkg/model/config/store.go:61-63 | the same of any listings the store contract allows |
| Mock.FakeAcceptable | pkg/testing/mock/config.go:32-45 | a test entry is accepted if and only if its key is not empty |
| Mock.ComparesAllButRevision | pkg/testing/mock/config.go:70-75 | the comparison looks at every field but the revision |
| Mock.FilledListing | pkg/testing/mock/config.go:181-188 | a store filled with n elements lists exactly n |
| MapInvariant.PostAll | pkg/testing/mock/config.go:92-97 | posting in any order fills the store with the elements and nothing else, without an error |
| MapInvariant.CheckStored | pkg/testing/mock/config.go:101-109 | every element reads back equal but for its revision, and the revision noted is the stored one |
| MapInvariant.CheckRefusedWrites | pkg/testing/mock/config.go:111-154 | posting twice and invalid, missing, unrevised and badly revised writes are all tried, all fail and change nothing |
| MapInvariant.CheckMissing | pkg/testing/mock/config.go:156-179 | missing types and elements are asked for, and not listed, found or deleted, and nothing changes |
| MapInvariant.UpdateAll | pkg/testing/mock/config.go:190-199 | the revisions noted before are still current, so every update succeeds |
| MapInvariant.DeleteAll | pkg/testing/mock/config.go:209-214 | deleting in any order leaves what was there before the script |
| MapInvariant.CheckMapInvariant | pkg/testing/mock/config.go:78-223 | over any store that knows the test type and holds nothing of the types the script works on, so over any empty one, the whole script is carried out, operation by operation, finds no error for every n and every namespace, and leaves the entries as it found them |
| Shipped.TypesDoNotAlias | pkg/model/config/store.go:112-132 | the shipped plurals stay distinct after dash removal |
| Shipped.ShippedRefines | pkg/model/config/store.go:112-132 | clients of the shipped types keep the store contract in every run with matching messages |
| Shipped.OneCreationHidesAllPlans | pkg/model/config/schema.go:164-178 | a service plan that carries a service class message is accepted wherever its name is free; it is then not found, and no reader sees any service plan |
| Shipped.TestStoreInvariant | pkg/platform/kube/crd/client_test.go:95-99 | a client for the shipped types over an empty server passes the script, for every n and every namespace |
| Shipped.ServiceShowsEntry | pkg/model/osb/service.go:39-47 | a service shows the texts stored under "entry", and empty ones where they are missing |
| Shipped.PlanShowsPlan | pkg/model/osb/servicePlan.go:28-36 | a plan shows the texts stored under "plan" and offers the services stored under "services" |
| BrokerStore.BrokerConfigStore.ServiceClasses | pkg/model/config/store.go:145-158 | the map is built from one listing, and is empty if that listing reported any error |
| BrokerStore.BrokerConfigStore.ServicePlans | pkg/model/config/store.go:160-173 | the map is built from one listing, and is empty if that listing reported any error |
| BrokerStore.BrokerConfigStore.ServicePlansByService | pkg/model/config/store.go:175-188 | of the plans of one listing, exactly those that name the service, with the loop leaving at the first match |
| BrokerStore.TypedMapFaithful | pkg/model/config/store.go:152-156 | the map has exactly one entry for each listed object of the right message type: nothing is overwritten |
| BrokerStore.SlashedKeysCollide | pkg/model/config/store.go:82-89 | every entry with a slash in its namespace or name shares its key with another of its type, and the typed map then depends on the order of the listing |
| BrokerStore.OneEntryPerObject | pkg/model/config/store.go:145-173 | in a state without slashes in namespaces, ServiceClasses and ServicePlans return one map entry for each object of the type, under its key with the message it decodes to, and nothing else; or nothing at all when an object does not decode |
| BrokerStore.ReadsUniqueIffKeysAgree | pkg/model/config/store.go:145-173 | the order of the listing never shows in the typed map if and only if the listing fails or no two objects of the type share a key and differ |
| BrokerStore.SlashFreeAgrees | pkg/model/config/store.go:82-89 | without slashes in namespaces no two objects of a type share a key |
| BrokerStore.ReadsDetermined | pkg/model/config/store.go:145-173 | under that condition a state has one typed map, whatever order the listing came in and whether it fails or not |
| BrokerStore.ReadsGrow | pkg/model/config/store.go:145-173 | when objects are only added, the typed map only grows as long as the later listing reports no error and objects sharing a key agree, and is empty when it does report one |
| BrokerStore.AllOrNothing | pkg/model/config/store.go:160-173 | the map is built from all objects of the type, or is empty as soon as one does not decode |
| Osb.Service.constructor | pkg/model/osb/service.go:39-47 | a new service carries the class's entry texts and no plans |
| Osb.Service.AddPlan | pkg/model/osb/service.go:34-37 | the plan goes to the end of the plans, and nothing else changes |
| Osb.Catalog.AddService | pkg/model/osb/catalog.go:24-27 | the value of the service goes to the end of the services |
| Controller.Controller.AddPlans | pkg/controller/controller.go:53-57 | every plan of the map is added once, in the order walked |
| Controller.Controller.GetCatalog | pkg/controller/controller.go:47-61 | one service for each class listed first, each with exactly the plans that offer it among those listed at one later moment, while others write between the requests and the catalog itself writes nothing |
| CatalogLaws.CatalogIsJoin | pkg/controller/controller.go:47-61 | for one plan map the catalog is, as a multiset of services with multisets of plans, the join of classes and plans, in whatever orders the maps were walked |
| CatalogLaws.ServedPlans | pkg/controller/controller.go:50-59 | the plans of a service in the catalog are, as a multiset, the selection from the plans read at its moment |
| CatalogLaws.QuietCatalogIsSnapshot | pkg/controller/controller.go:47-61 | with no other writer the catalog is the join of the state's classes and plans, also over objects that do not decode, unless two objects share a key and differ |
| CatalogLaws.CatalogCountsTwice | pkg/controller/controller.go:50-59 | the plans counted over services equal, over plans, the number of distinct existing services each names: repeated names add nothing |
| CatalogLaws.CreationsBetween | pkg/controller/controller.go:49-58 | when other clients, whatever their types and messages, only create, and the last listing of the plans does not fail or show different plans under one key, the plans of each service in the catalog lie, as a multiset, between those offered when the classes were read and those offered at the end |
| CatalogLaws.UndecodablePlanHidesAll | pkg/model/config/store.go:160-173 | one plan object that does not decode when a service's plans are listed leaves the service without plans |

## Left out

- The text of JSON and YAML: documents and specs are trees; the step from tree to text and back is trusted.
- Nil and empty maps and slices are one value; `reflect.DeepEqual` would tell them apart.
- Numbers, enumerations and well-known types in messages: the shipped messages have strings, lists and submessages only.
- Messages of `istio.io/api`, which is not part of this model, are taken to have the fields the tests and examples use, in that order.
- Names of JSON members are matched exactly; Go's decoder also ignores their case.
- A null inside a list of a message is refused; decoding libraries differ in this.
- Failing requests: the modelled server always answers; `ConvertItems` takes any error of the fetch.
- Delayed visibility and intermittent errors of writes: each request is one atomic step.
- A revision carried by a creation is ignored by the modelled server; the contract says nothing of it.
- The API server's own checks of names and namespaces.
- `RegisterResources`, `DeregisterResources`, `CreateRESTConfig`, `resolveConfig`: cluster and file access.
- Deep copies of lists with items, which the generated code cannot do; labels and annotations are values, so sharing them is not modelled.
- `Descriptor.Types` and `GetByMessageName`: easy loops nothing else needs.
- The wording of errors: a failed decoding has a kind, and the rest of it is text.
- `TypeMeta` of the wrappers, logging, HTTP serving, commands and version information.
- `CheckBrokerConfigTypes`: one creation and one read for each shipped type, which the refinement covers.
- Unicode in `strings.Title`: names are ASCII.
- AlwaysStoredOk: a writer with a mismatched message, or a descriptor that keeps another type under a shared resource, can spoil objects; `OneCreationHidesAllPlans` shows how.
- ClientRefinesStore: one descriptor for all clients, since the contract's answers depend on the known types; `Concurrency`, `AlwaysNamed` and the catalog laws allow a different descriptor for each.
- ReadsDetermined: where two different objects of a type share a key the map depends on the order of the listing (`ReadsUniqueIffKeysAgree`); Kubernetes rules this out by refusing slashes in namespaces, which the model does not check.
